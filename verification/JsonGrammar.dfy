/**
  The texts `json.loads` accepts, as a grammar (section 2 to section 7 of RFC 8259), and the proof
  that the parser of `Json` accepts exactly these and answers what they mean.

  A `Tree` is a JSON text with every choice of writing left open: white space, escapes, digits.
 */
module JsonGrammar {
  import opened Text
  import opened Json
  import opened CanonicalJson

  // ------------------------------------------------------------------ strings

  /** A character as it is, a two-character escape, or one or two `\u` escapes. */
  datatype Piece = Plain(c: char) | Short(letter: char) | Unit(hex: string) | Pair(high: string, low: string)

  function PieceText(p: Piece): string {
    if p.Plain? then [p.c] else ['\\'] + EscapeText(p)
  }

  /** An escape after its backslash. */
  function EscapeText(p: Piece): string
    requires !p.Plain?
  {
    match p
    case Short(letter) => [letter]
    case Unit(hex) => "u" + hex
    case Pair(high, low) => "u" + high + "\\u" + low
  }

  /** One hexadecimal digit of either case. */
  ghost predicate Spells(c: char, d: int) {
    if 0 <= d < 10 then c as int == '0' as int + d
    else 10 <= d < 16 && (c as int == 'a' as int + d - 10 || c as int == 'A' as int + d - 10)
  }

  ghost predicate DigitsAre(hex: string, a: int, b: int, c: int, d: int) {
    |hex| == 4 && Spells(hex[0], a) && Spells(hex[1], b) && Spells(hex[2], c) && Spells(hex[3], d)
  }

  ghost predicate HexIs(hex: string, u: int) {
    exists a, b, c, d :: DigitsAre(hex, a, b, c, d) && u == 4096 * a + 256 * b + 16 * c + d
  }

  /** A surrogate pair and the character it stands for. */
  ghost predicate PairIs(high: string, low: string, u: int, w: int, c: char) {
    && HexIs(high, u) && HexIs(low, w) && 0xD800 <= u < 0xDC00 && 0xDC00 <= w < 0xE000
    && c as int == 0x10000 + 0x400 * (u - 0xD800) + (w - 0xDC00)
  }

  ghost predicate PieceMeans(p: Piece, c: char) {
    match p
    case Plain(x) => c == x && c as int >= 0x20 && c != '"' && c != '\\'
    case Short(letter) =>
      || (letter == '"' && c == '"') || (letter == '\\' && c == '\\') || (letter == '/' && c == '/')
      || (letter == 'b' && c as int == 0x08) || (letter == 'f' && c as int == 0x0C)
      || (letter == 'n' && c as int == 0x0A) || (letter == 'r' && c as int == 0x0D)
      || (letter == 't' && c as int == 0x09)
    case Unit(hex) => HexIs(hex, c as int)
    case Pair(high, low) => exists u, w :: PairIs(high, low, u, w, c)
  }

  function PiecesText(ps: seq<Piece>): string {
    if ps == [] then "" else PieceText(ps[0]) + PiecesText(ps[1..])
  }

  ghost predicate PiecesMean(ps: seq<Piece>, s: string) {
    |ps| == |s| && forall i :: 0 <= i < |s| ==> PieceMeans(ps[i], s[i])
  }

  lemma {:induction false} SpelledValue(c: char, d: int)
    ensures Spells(c, d) <==> 0 <= d && HexValue(c) == d
  {
  }

  lemma {:induction false} HexReads(hex: string, rest: string, u: int)
    requires |hex| == 4
    ensures HexIs(hex, u) <==> 0 <= u && Hex4(hex + rest) == u
  {
    forall i, d | 0 <= i < 4 ensures Spells(hex[i], d) <==> 0 <= d && HexValue(hex[i]) == d {
      SpelledValue(hex[i], d);
    }
    if HexIs(hex, u) {
      var a, b, c, d :| DigitsAre(hex, a, b, c, d) && u == 4096 * a + 256 * b + 16 * c + d;
    }
    if 0 <= u && Hex4(hex + rest) == u {
      assert DigitsAre(hex, HexValue(hex[0]), HexValue(hex[1]), HexValue(hex[2]), HexValue(hex[3]));
    }
  }

  lemma {:induction false} UnitReads(hex: string, rest: string)
    requires |hex| == 4
    ensures var t := "u" + hex + rest; t[0] == 'u' && t[1..] == hex + rest && t[5..] == rest
  {
    assert ("u" + hex + rest)[1..] == hex + rest;
  }

  lemma {:induction false} PairReads(high: string, low: string, rest: string)
    requires |high| == 4 && |low| == 4
    ensures var t := "u" + high + "\\u" + low + rest;
      && t[0] == 'u' && t[1..] == high + ("\\u" + low + rest) && |t| >= 11 && t[5] == '\\' && t[6] == 'u'
      && t[7..] == low + rest && t[11..] == rest
  {
    var t := "u" + high + "\\u" + low + rest;
    assert t[1..] == high + ("\\u" + low + rest);
    assert t[7..] == low + rest;
  }

  lemma {:induction false} ShortAccepts(letter: char, c: char, rest: string)
    requires PieceMeans(Short(letter), c)
    ensures ParseEscape([letter] + rest) == Parsed(c, rest)
  {
    assert ([letter] + rest)[1..] == rest;
  }

  lemma {:induction false} UnitAccepts(hex: string, c: char, rest: string)
    requires PieceMeans(Unit(hex), c)
    ensures ParseEscape("u" + hex + rest) == Parsed(c, rest)
  {
    UnitReads(hex, rest);
    HexReads(hex, rest, c as int);
  }

  lemma {:induction false} PairStep(t: string, u: int, w: int)
    requires |t| >= 11 && t[0] == 'u' && t[5] == '\\' && t[6] == 'u'
    requires Hex4(t[1..]) == u && Hex4(t[7..]) == w && 0xD800 <= u < 0xDC00 && 0xDC00 <= w < 0xE000
    ensures ParseEscape(t) == Parsed((0x10000 + (u - 0xD800) * 0x400 + (w - 0xDC00)) as char, t[11..])
  {
  }

  lemma {:induction false} PairAccepts(high: string, low: string, c: char, rest: string)
    requires PieceMeans(Pair(high, low), c)
    ensures ParseEscape("u" + high + "\\u" + low + rest) == Parsed(c, rest)
  {
    var u, w :| PairIs(high, low, u, w, c);
    HexPairAccepts(high, low, u, w, rest);
  }

  lemma {:induction false} HexPairAccepts(high: string, low: string, u: int, w: int, rest: string)
    requires HexIs(high, u) && HexIs(low, w) && 0xD800 <= u < 0xDC00 && 0xDC00 <= w < 0xE000
    ensures ParseEscape("u" + high + "\\u" + low + rest)
      == Parsed((0x10000 + (u - 0xD800) * 0x400 + (w - 0xDC00)) as char, rest)
  {
    PairReads(high, low, rest);
    HexReads(high, "\\u" + low + rest, u);
    HexReads(low, rest, w);
    PairStep("u" + high + "\\u" + low + rest, u, w);
  }

  /** Reading an escape gives what it means. */
  lemma {:induction false} EscapeAccepts(p: Piece, c: char, rest: string)
    requires !p.Plain? && PieceMeans(p, c)
    ensures ParseEscape(EscapeText(p) + rest) == Parsed(c, rest)
  {
    if p.Short? {
      ShortAccepts(p.letter, c, rest);
    } else if p.Unit? {
      UnitAccepts(p.hex, c, rest);
    } else {
      PairAccepts(p.high, p.low, c, rest);
    }
  }

  /** And every escape that is read has been written. */
  lemma {:induction false} EscapeWritten(t: string, c: char, rest: string) returns (p: Piece)
    requires ParseEscape(t) == Parsed(c, rest)
    ensures !p.Plain? && PieceMeans(p, c) && t == EscapeText(p) + rest
  {
    if t[0] != 'u' {
      p := ShortWritten(t, c, rest);
    } else if Hex4(t[1..]) < 0xD800 || 0xE000 <= Hex4(t[1..]) {
      p := UnitWritten(t, c, rest);
    } else {
      p := PairWritten(t, c, rest);
    }
  }

  lemma {:induction false} ShortWritten(t: string, c: char, rest: string) returns (p: Piece)
    requires ParseEscape(t) == Parsed(c, rest) && t[0] != 'u'
    ensures p.Short? && PieceMeans(p, c) && t == EscapeText(p) + rest
  {
    p := Short(t[0]);
    assert t == [t[0]] + t[1..];
  }

  lemma {:induction false} UnitWritten(t: string, c: char, rest: string) returns (p: Piece)
    requires ParseEscape(t) == Parsed(c, rest) && t[0] == 'u' && !(0xD800 <= Hex4(t[1..]) < 0xE000)
    ensures p.Unit? && PieceMeans(p, c) && t == EscapeText(p) + rest
  {
    UnitRead(t, c, rest);
    p := UnitPiece(t, c);
  }

  lemma {:induction false} UnitPiece(t: string, c: char) returns (p: Piece)
    requires |t| >= 5 && t[0] == 'u' && Hex4(t[1..]) == c as int
    ensures p.Unit? && PieceMeans(p, c) && t == EscapeText(p) + t[5..]
  {
    HexCut(t, 1, c as int);
    p := Unit(t[1..5]);
    assert t == [t[0]] + t[1..5] + t[5..];
  }

  lemma {:induction false} UnitRead(t: string, c: char, rest: string)
    requires ParseEscape(t) == Parsed(c, rest) && t[0] == 'u' && !(0xD800 <= Hex4(t[1..]) < 0xE000)
    ensures |t| >= 5 && c as int == Hex4(t[1..]) && rest == t[5..]
  {
  }

  lemma {:induction false} PairWritten(t: string, c: char, rest: string) returns (p: Piece)
    requires ParseEscape(t) == Parsed(c, rest) && t[0] == 'u' && 0xD800 <= Hex4(t[1..]) < 0xE000
    ensures p.Pair? && PieceMeans(p, c) && t == EscapeText(p) + rest
  {
    PairRead(t, c, rest);
    p := PairPiece(t, Hex4(t[1..]), Hex4(t[7..]), c);
  }

  lemma {:induction false} PairPiece(t: string, u: int, w: int, c: char) returns (p: Piece)
    requires |t| >= 11 && t[0] == 'u' && t[5] == '\\' && t[6] == 'u'
    requires Hex4(t[1..]) == u && Hex4(t[7..]) == w && 0xD800 <= u < 0xDC00 && 0xDC00 <= w < 0xE000
    requires c as int == 0x10000 + (u - 0xD800) * 0x400 + (w - 0xDC00)
    ensures p.Pair? && PieceMeans(p, c) && t == EscapeText(p) + t[11..]
  {
    HexCut(t, 1, u);
    HexCut(t, 7, w);
    p := Pair(t[1..5], t[7..11]);
    PairMeans(t[1..5], t[7..11], u, w, c);
    PairCut(t, t[1..5], t[7..11]);
  }

  lemma {:induction false} PairRead(t: string, c: char, rest: string)
    requires ParseEscape(t) == Parsed(c, rest) && t[0] == 'u' && 0xD800 <= Hex4(t[1..]) < 0xE000
    ensures Hex4(t[1..]) < 0xDC00 && |t| >= 11 && t[5] == '\\' && t[6] == 'u' && 0xDC00 <= Hex4(t[7..]) < 0xE000
    ensures c as int == 0x10000 + (Hex4(t[1..]) - 0xD800) * 0x400 + (Hex4(t[7..]) - 0xDC00) && rest == t[11..]
  {
  }

  lemma {:induction false} HexCut(t: string, i: nat, u: int)
    requires i + 4 <= |t| && Hex4(t[i..]) == u && u >= 0
    ensures HexIs(t[i..i + 4], u)
  {
    var hex := t[i..i + 4];
    assert t[i..] == hex + t[i + 4..];
    HexReads(hex, t[i + 4..], u);
  }

  lemma {:induction false} PairMeans(high: string, low: string, u: int, w: int, c: char)
    requires HexIs(high, u) && HexIs(low, w) && 0xD800 <= u < 0xDC00 && 0xDC00 <= w < 0xE000
    requires c as int == 0x10000 + (u - 0xD800) * 0x400 + (w - 0xDC00)
    ensures PieceMeans(Pair(high, low), c)
  {
    assert PairIs(high, low, u, w, c);
  }

  lemma {:induction false} PairCut(t: string, high: string, low: string)
    requires |t| >= 11 && t[0] == 'u' && t[5] == '\\' && t[6] == 'u' && high == t[1..5] && low == t[7..11]
    ensures t == EscapeText(Pair(high, low)) + t[11..]
  {
    assert t == [t[0]] + t[1..5] + [t[5], t[6]] + t[7..11] + t[11..];
  }

  lemma {:induction false} CharsAccept(ps: seq<Piece>, s: string, rest: string)
    requires PiecesMean(ps, s)
    ensures ParseChars(PiecesText(ps) + "\"" + rest) == Parsed(s, rest)
    decreases |ps|
  {
    if ps == [] {
      assert ("" + "\"" + rest)[1..] == rest;
    } else {
      var more := PiecesText(ps[1..]) + "\"" + rest;
      CharsAccept(ps[1..], s[1..], rest);
      PieceAccepts(ps[0], s[0], more);
      PiecesCons(ps, rest);
      assert s == [s[0]] + s[1..];
    }
  }

  lemma {:induction false} PiecesCons(ps: seq<Piece>, rest: string)
    requires ps != []
    ensures PiecesText(ps) + "\"" + rest == PieceText(ps[0]) + (PiecesText(ps[1..]) + "\"" + rest)
  {
  }

  /** What a character adds in front of the rest of a literal. */
  function Consed(c: char, r: Parsed<string>): Parsed<string> {
    match r
    case Failed(w) => Failed(w)
    case Parsed(cs, end) => Parsed([c] + cs, end)
  }

  lemma {:induction false} EscapeStep(t: string, c: char, more: string)
    requires ParseEscape(t) == Parsed(c, more)
    ensures ParseChars(['\\'] + t) == Consed(c, ParseChars(more))
  {
    assert (['\\'] + t)[1..] == t;
  }

  lemma {:induction false} PlainStep(c: char, more: string)
    requires c as int >= 0x20 && c != '"' && c != '\\'
    ensures ParseChars([c] + more) == Consed(c, ParseChars(more))
  {
    assert ([c] + more)[1..] == more;
  }

  lemma {:induction false} PieceAccepts(p: Piece, c: char, more: string)
    requires PieceMeans(p, c)
    ensures ParseChars(PieceText(p) + more) == Consed(c, ParseChars(more))
  {
    if p.Plain? {
      PlainStep(c, more);
    } else {
      EscapeAccepts(p, c, more);
      EscapeStep(EscapeText(p) + more, c, more);
      assert PieceText(p) + more == ['\\'] + (EscapeText(p) + more);
    }
  }

  lemma {:induction false} CharsWritten(t: string, s: string, rest: string) returns (ps: seq<Piece>)
    requires ParseChars(t) == Parsed(s, rest)
    ensures PiecesMean(ps, s) && t == PiecesText(ps) + "\"" + rest
    decreases |t|
  {
    if t[0] == '"' {
      ps := [];
      assert t == [t[0]] + t[1..];
    } else {
      var p, more := FirstWritten(t, s, rest);
      var tail := CharsWritten(more, s[1..], rest);
      ps := [p] + tail;
      PiecesJoin(p, tail, t, more, rest);
      MeanCons(p, tail, s);
    }
  }

  lemma {:induction false} FirstWritten(t: string, s: string, rest: string) returns (p: Piece, more: string)
    requires ParseChars(t) == Parsed(s, rest) && t[0] != '"'
    ensures |more| < |t| && t == PieceText(p) + more
    ensures s != "" && PieceMeans(p, s[0]) && ParseChars(more) == Parsed(s[1..], rest)
  {
    if t[0] == '\\' {
      var c := ParseEscape(t[1..]).value;
      more := ParseEscape(t[1..]).rest;
      p := EscapeWritten(t[1..], c, more);
      assert t == ['\\'] + t[1..];
    } else {
      p, more := Plain(t[0]), t[1..];
      assert t == [t[0]] + t[1..];
    }
  }

  lemma {:induction false} PiecesJoin(p: Piece, tail: seq<Piece>, t: string, more: string, rest: string)
    requires t == PieceText(p) + more && more == PiecesText(tail) + "\"" + rest
    ensures t == PiecesText([p] + tail) + "\"" + rest
  {
    assert ([p] + tail)[1..] == tail;
    assert PiecesText([p] + tail) == PieceText(p) + PiecesText(tail);
  }

  lemma {:induction false} MeanCons(p: Piece, tail: seq<Piece>, s: string)
    requires s != "" && PieceMeans(p, s[0]) && PiecesMean(tail, s[1..])
    ensures PiecesMean([p] + tail, s)
  {
  }

  // ------------------------------------------------------------------ numbers

  datatype Exponent = Exponent(letter: char, sign: string, digits: string)

  datatype Number = Number(minus: bool, whole: string, fraction: Option<string>, exponent: Option<Exponent>)

  function WholeText(n: Number): string {
    (if n.minus then "-" else "") + n.whole
  }

  function FractionText(n: Number): string {
    if n.fraction.Some? then "." + n.fraction.value else ""
  }

  function ExponentText(n: Number): string {
    if n.exponent.Some? then [n.exponent.value.letter] + n.exponent.value.sign + n.exponent.value.digits else ""
  }

  function NumberText(n: Number): string {
    WholeText(n) + FractionText(n) + ExponentText(n)
  }

  /** No leading zero, and digits wherever there are to be some. */
  ghost predicate NumberFormed(n: Number) {
    && n.whole != "" && AllDigits(n.whole) && (n.whole[0] == '0' ==> n.whole == "0")
    && (n.fraction.Some? ==> n.fraction.value != "" && AllDigits(n.fraction.value))
    && (n.exponent.Some? ==>
          && n.exponent.value.letter in {'e', 'E'} && n.exponent.value.sign in {"", "+", "-"}
          && n.exponent.value.digits != "" && AllDigits(n.exponent.value.digits))
  }

  /** An integer by its value, anything else by its text. */
  ghost predicate NumberMeans(n: Number, v: Json) {
    && NumberFormed(n)
    && if n.fraction == None && n.exponent == None then
         v == Int(if n.minus then -(NatValue(n.whole) as int) else NatValue(n.whole))
       else v == Float(NumberText(n))
  }

  /** What can stand after a value. */
  ghost predicate Follows(rest: string) {
    rest == "" || rest[0] in {' ', '\t', '\n', '\r', ',', ']', '}'}
  }

  lemma {:induction false} DigitsThen(digits: string, rest: string)
    requires AllDigits(digits) && (rest == "" || !IsDigit(rest[0]))
    ensures DigitRun(digits + rest) == |digits|
  {
    DigitRunExtends(digits, rest);
    DigitRunAll(digits);
  }

  lemma {:induction false} WholeThen(n: Number, rest: string)
    requires NumberFormed(n) && (rest == "" || !IsDigit(rest[0]))
    ensures IntPart(WholeText(n) + rest) == |WholeText(n)|
  {
    var t := WholeText(n) + rest;
    var k := if n.minus then 1 else 0;
    assert t[k..] == n.whole + rest;
    assert t[k] == n.whole[0] && IsDigit(n.whole[0]);
    DigitsThen(n.whole, rest);
  }

  lemma {:induction false} FractionThen(n: Number, rest: string)
    requires NumberFormed(n) && (rest == "" || (!IsDigit(rest[0]) && rest[0] != '.'))
    ensures FracPart(FractionText(n) + rest) == |FractionText(n)|
  {
    var t := FractionText(n) + rest;
    if n.fraction.Some? {
      assert t[1..] == n.fraction.value + rest;
      assert IsDigit(n.fraction.value[0]) && t[1] == n.fraction.value[0];
      DigitsThen(n.fraction.value, rest);
    } else {
      assert t == rest;
    }
  }

  lemma {:induction false} ExponentThen(n: Number, rest: string)
    requires NumberFormed(n) && Follows(rest)
    ensures ExpPart(ExponentText(n) + rest) == |ExponentText(n)|
  {
    if n.exponent.Some? {
      var e := n.exponent.value;
      SignThen(e.letter, e.sign, e.digits, rest);
    } else {
      assert ExponentText(n) + rest == rest;
    }
  }

  lemma {:induction false} SignThen(letter: char, sign: string, digits: string, rest: string)
    requires letter in {'e', 'E'} && sign in {"", "+", "-"} && digits != "" && AllDigits(digits)
    requires rest == "" || !IsDigit(rest[0])
    ensures ExpPart([letter] + sign + digits + rest) == 1 + |sign| + |digits|
  {
    var t, k := [letter] + sign + digits + rest, 1 + |sign|;
    assert t[k..] == digits + rest;
    assert IsDigit(digits[0]) && t[k] == digits[0];
    if sign != "" {
      assert t[1] == sign[0];
    }
    DigitsThen(digits, rest);
  }

  /** Three texts in front of a rest. */
  lemma {:induction false} ThreeCuts(a: string, b: string, c: string, rest: string)
    ensures var s := a + b + c + rest;
      && s == a + (b + (c + rest)) && s[|a|..] == b + (c + rest) && s[|a| + |b|..] == c + rest
      && s[..|a| + |b| + |c|] == a + b + c && s[|a| + |b| + |c|..] == rest
  {
  }

  lemma {:induction false} FractionStart(n: Number, rest: string)
    requires NumberFormed(n) && Follows(rest)
    ensures var late := ExponentText(n) + rest; late == "" || (!IsDigit(late[0]) && late[0] != '.')
    ensures var mid := FractionText(n) + (ExponentText(n) + rest); mid == "" || !IsDigit(mid[0])
  {
  }

  lemma {:induction false} PartsThen(n: Number, rest: string)
    requires NumberFormed(n) && Follows(rest)
    ensures var s := NumberText(n) + rest; var i, f := |WholeText(n)|, |FractionText(n)|;
      && i == IntPart(s) && i + f <= |s| && f == FracPart(s[i..]) && |ExponentText(n)| == ExpPart(s[i + f..])
  {
    ThreeCuts(WholeText(n), FractionText(n), ExponentText(n), rest);
    FractionStart(n, rest);
    ExponentThen(n, rest);
    FractionThen(n, ExponentText(n) + rest);
    WholeThen(n, FractionText(n) + (ExponentText(n) + rest));
  }

  lemma {:induction false} NumberAccepts(n: Number, v: Json, rest: string)
    requires NumberMeans(n, v) && Follows(rest)
    ensures ParseNumber(NumberText(n) + rest) == Parsed(v, rest)
  {
    var s := NumberText(n) + rest;
    var i, f, e := |WholeText(n)|, |FractionText(n)|, |ExponentText(n)|;
    PartsThen(n, rest);
    NumberFrom(s, i, f, e);
    ThreeCuts(WholeText(n), FractionText(n), ExponentText(n), rest);
    NumberIs(n, v);
  }

  lemma {:induction false} NumberIs(n: Number, v: Json)
    requires NumberMeans(n, v)
    ensures NumberOf(NumberText(n), |FractionText(n)| + |ExponentText(n)| == 0) == v
  {
    if n.fraction == None && n.exponent == None {
      assert NumberText(n) == WholeText(n);
      if n.minus {
        assert WholeText(n)[1..] == n.whole;
      } else {
        assert WholeText(n) == n.whole && IsDigit(n.whole[0]);
      }
    }
  }

  lemma {:induction false} WholeWritten(s: string) returns (minus: bool, whole: string)
    requires IntPart(s) > 0
    ensures s[..IntPart(s)] == (if minus then "-" else "") + whole
    ensures whole != "" && AllDigits(whole) && (whole[0] == '0' ==> whole == "0")
  {
    minus := s[0] == '-';
    var k, i := if minus then 1 else 0, IntPart(s);
    whole := s[k..i];
    if s[k] != '0' {
      assert whole == s[k..][..DigitRun(s[k..])];
    }
    assert minus ==> s[..i] == [s[0]] + s[1..i];
  }

  lemma {:induction false} FractionWritten(s: string) returns (fraction: Option<string>)
    ensures fraction.Some? <==> FracPart(s) > 0
    ensures fraction.None? ==> FracPart(s) == 0
    ensures fraction.Some? ==>
      s[..FracPart(s)] == "." + fraction.value && fraction.value != "" && AllDigits(fraction.value)
  {
    var f := FracPart(s);
    if f > 0 {
      var digits := s[1..][..DigitRun(s[1..])];
      assert s[..f] == [s[0]] + digits;
      fraction := Some(digits);
    } else {
      fraction := None;
    }
  }

  lemma {:induction false} ExponentWritten(s: string) returns (exponent: Option<Exponent>)
    ensures exponent.Some? <==> ExpPart(s) > 0
    ensures exponent.None? ==> ExpPart(s) == 0
    ensures exponent.Some? ==> var e := exponent.value;
      && s[..ExpPart(s)] == [e.letter] + e.sign + e.digits
      && e.letter in {'e', 'E'} && e.sign in {"", "+", "-"} && e.digits != "" && AllDigits(e.digits)
  {
    var n := ExpPart(s);
    if n > 0 {
      var k := if |s| > 1 && (s[1] == '+' || s[1] == '-') then 2 else 1;
      var digits := s[k..][..DigitRun(s[k..])];
      var sign := s[1..k];
      assert sign == "" || sign == [s[1]];
      assert s[..n] == [s[0]] + sign + digits;
      exponent := Some(Exponent(s[0], sign, digits));
    } else {
      exponent := None;
    }
  }

  /** Every number that is read has been written. */
  lemma {:induction false} NumberWritten(s: string, v: Json, rest: string) returns (n: Number)
    requires ParseNumber(s) == Parsed(v, rest)
    ensures s == NumberText(n) + rest && NumberMeans(n, v)
  {
    var i := IntPart(s);
    var f := FracPart(s[i..]);
    var e := ExpPart(s[i + f..]);
    var minus, whole := WholeWritten(s);
    var fraction := FractionWritten(s[i..]);
    var exponent := ExponentWritten(s[i + f..]);
    n := Number(minus, whole, fraction, exponent);
    NumberFrom(s, i, f, e);
    ThreePieces(s, i, f, e);
    NumberIsWritten(n, i, f, e, s, v);
  }

  lemma {:induction false} ThreePieces(s: string, i: nat, f: nat, e: nat)
    requires i + f + e <= |s|
    ensures s[..i + f + e] == s[..i] + s[i..][..f] + s[i + f..][..e]
    ensures s == s[..i + f + e] + s[i + f + e..]
  {
  }

  lemma {:induction false} NumberIsWritten(n: Number, i: nat, f: nat, e: nat, s: string, v: Json)
    requires NumberFormed(n) && i + f + e <= |s| && (n.fraction == None <==> f == 0) && (n.exponent == None <==> e == 0)
    requires s[..i + f + e] == NumberText(n) && v == NumberOf(NumberText(n), f + e == 0)
    ensures NumberMeans(n, v)
  {
    if f + e == 0 {
      assert NumberText(n) == WholeText(n);
      if n.minus {
        assert WholeText(n)[1..] == n.whole;
      } else {
        assert WholeText(n) == n.whole && IsDigit(n.whole[0]);
      }
    }
  }

  // ------------------------------------------------------------------- values

  datatype Tree =
    | Word(text: string)
    | Numeral(number: Number)
    | Literal(pieces: seq<Piece>)
    | List(gap: string, slots: seq<Slot>)
    | Dict(gap: string, fields: seq<FieldSlot>)

  /** An item with the white space around it. */
  datatype Slot = Slot(before: string, tree: Tree, after: string)

  /** A member with the white space around its name and its value. */
  datatype FieldSlot = FieldSlot(
    before: string, name: seq<Piece>, afterName: string, beforeValue: string, tree: Tree, after: string)

  ghost predicate Blank(s: string) {
    forall i :: 0 <= i < |s| ==> s[i] in {' ', '\t', '\n', '\r'}
  }

  function TreeText(t: Tree): string
    decreases t, 1
  {
    match t
    case Word(text) => text
    case Numeral(number) => NumberText(number)
    case Literal(pieces) => "\"" + PiecesText(pieces) + "\""
    case List(gap, slots) => "[" + (if slots == [] then gap else SlotsText(slots)) + "]"
    case Dict(gap, fields) => "{" + (if fields == [] then gap else FieldsText(fields)) + "}"
  }

  function SlotText(s: Slot): string
    decreases s, 2
  {
    s.before + TreeText(s.tree) + s.after
  }

  /** The items between commas. */
  function SlotsText(slots: seq<Slot>): string
    decreases slots, 0
  {
    if slots == [] then "" else if |slots| == 1 then SlotText(slots[0])
    else SlotText(slots[0]) + "," + SlotsText(slots[1..])
  }

  function FieldSlotText(f: FieldSlot): string
    decreases f, 2
  {
    f.before + "\"" + PiecesText(f.name) + "\"" + f.afterName + ":" + f.beforeValue + TreeText(f.tree) + f.after
  }

  function FieldsText(fields: seq<FieldSlot>): string
    decreases fields, 0
  {
    if fields == [] then "" else if |fields| == 1 then FieldSlotText(fields[0])
    else FieldSlotText(fields[0]) + "," + FieldsText(fields[1..])
  }

  /** The value of a text: of an object, its members in the order written, no two under one name. */
  ghost predicate Means(t: Tree, v: Json)
    decreases t, 1
  {
    match t
    case Word(text) =>
      (text == "null" && v == Null) || (text == "true" && v == Bool(true)) || (text == "false" && v == Bool(false))
    case Numeral(number) => NumberMeans(number, v)
    case Literal(pieces) => v.Str? && PiecesMean(pieces, v.s)
    case List(gap, slots) => v.Arr? && Blank(gap) && SlotsMean(slots, v.items)
    case Dict(gap, fields) => v.Obj? && Blank(gap) && FieldsMean(fields, v.entries) && UniqueKeys(v.entries)
  }

  ghost predicate SlotsMean(slots: seq<Slot>, items: seq<Json>)
    decreases slots, 0
  {
    && |slots| == |items|
    && forall i :: 0 <= i < |slots| ==>
         Blank(slots[i].before) && Means(slots[i].tree, items[i]) && Blank(slots[i].after)
  }

  ghost predicate FieldsMean(fields: seq<FieldSlot>, entries: seq<Member>)
    decreases fields, 0
  {
    && |fields| == |entries|
    && forall i :: 0 <= i < |fields| ==> FieldMeans(fields[i], entries[i])
  }

  ghost predicate FieldMeans(f: FieldSlot, e: Member)
    decreases f, 2
  {
    && Blank(f.before) && PiecesMean(f.name, e.key) && Blank(f.afterName)
    && Blank(f.beforeValue) && Means(f.tree, e.value) && Blank(f.after)
  }

  lemma {:induction false} SkipBlank(blank: string, rest: string)
    requires Blank(blank)
    ensures SkipWs(blank + rest) == SkipWs(rest)
  {
    if blank == "" {
      assert blank + rest == rest;
    } else {
      assert blank[0] in {' ', '\t', '\n', '\r'};
      assert (blank + rest)[1..] == blank[1..] + rest;
      SkipBlank(blank[1..], rest);
    }
  }

  lemma {:induction false} SkippedBlank(s: string) returns (blank: string)
    ensures Blank(blank) && s == blank + SkipWs(s)
    ensures SkipWs(s) == "" || !IsWs(SkipWs(s)[0])
  {
    blank := "";
    if s != [] && IsWs(s[0]) {
      var more := SkippedBlank(s[1..]);
      blank := [s[0]] + more;
      assert s == [s[0]] + s[1..];
    }
  }

  // ------------------------------------------------- every text is accepted

  /** A value starts with a character that is neither white space nor a closing bracket. */
  ghost predicate Starts(s: string) {
    s != "" && s[0] !in {' ', '\t', '\n', '\r', ']', '}'}
  }

  lemma {:induction false} TreeStarts(t: Tree, v: Json)
    requires Means(t, v)
    ensures Starts(TreeText(t))
  {
    if t.Numeral? {
      var n := t.number;
      assert IsDigit(n.whole[0]);
      assert NumberText(n)[0] == if n.minus then '-' else n.whole[0];
    }
  }

  lemma {:induction false} WordAccepts(text: string, v: Json, rest: string)
    requires Means(Word(text), v)
    ensures ParseValue(text + rest) == Parsed(v, rest)
  {
    var s := text + rest;
    assert text <= s && s[|text|..] == rest;
  }

  lemma {:induction false} NumeralAccepts(n: Number, v: Json, rest: string)
    requires NumberMeans(n, v) && Follows(rest)
    ensures ParseValue(NumberText(n) + rest) == Parsed(v, rest)
  {
    NumberAccepts(n, v, rest);
    NumberStart(NumberText(n) + rest);
    NumberIsScalar(NumberText(n) + rest);
  }

  lemma {:induction false} LiteralAccepts(ps: seq<Piece>, s: string, rest: string)
    requires PiecesMean(ps, s)
    ensures ParseValue("\"" + PiecesText(ps) + "\"" + rest) == Parsed(Str(s), rest)
  {
    CharsAccept(ps, s, rest);
    OpenQuote(PiecesText(ps) + "\"" + rest, s, rest);
    assert "\"" + PiecesText(ps) + "\"" + rest == ['"'] + (PiecesText(ps) + "\"" + rest);
  }

  lemma {:induction false} OpenQuote(t: string, s: string, rest: string)
    requires ParseChars(t) == Parsed(s, rest)
    ensures ParseValue(['"'] + t) == Parsed(Str(s), rest)
  {
    assert (['"'] + t)[1..] == t;
  }

  lemma {:induction false} ItemsEnd(u: string, v: Json, t: string, rest: string)
    requires ParseValue(u) == Parsed(v, t) && SkipWs(t) == "]" + rest
    ensures ParseItems(u) == Parsed([v], rest)
  {
    assert ("]" + rest)[1..] == rest;
  }

  lemma {:induction false} ItemsMore(u: string, v: Json, t: string, more: string, vs: seq<Json>, rest: string)
    requires ParseValue(u) == Parsed(v, t) && SkipWs(t) == "," + more && ParseItems(SkipWs(more)) == Parsed(vs, rest)
    ensures ParseItems(u) == Parsed([v] + vs, rest)
  {
    assert ("," + more)[1..] == more;
  }

  lemma {:induction false} EntriesEnd(u: string, name: string, colon: string, v: Json, t: string, rest: string)
    requires u != "" && u[0] == '"' && ParseChars(u[1..]).Parsed? && ParseChars(u[1..]).value == name
    requires SkipWs(ParseChars(u[1..]).rest) == ":" + colon
    requires ParseValue(SkipWs(colon)) == Parsed(v, t) && SkipWs(t) == "}" + rest
    ensures ParseEntries(u) == Parsed([Member(name, v)], rest)
  {
    assert (":" + colon)[1..] == colon && ("}" + rest)[1..] == rest;
  }

  lemma {:induction false} EntriesMore(
    u: string, name: string, colon: string, v: Json, t: string, more: string, es: seq<Member>, rest: string)
    requires u != "" && u[0] == '"' && ParseChars(u[1..]).Parsed? && ParseChars(u[1..]).value == name
    requires SkipWs(ParseChars(u[1..]).rest) == ":" + colon
    requires ParseValue(SkipWs(colon)) == Parsed(v, t) && SkipWs(t) == "," + more
    requires ParseEntries(SkipWs(more)) == Parsed(es, rest)
    ensures ParseEntries(u) == Parsed([Member(name, v)] + es, rest)
  {
    assert (":" + colon)[1..] == colon && ("," + more)[1..] == more;
  }

  lemma {:induction false} AfterFollows(after: string, mark: char, rest: string)
    requires Blank(after) && mark in {',', ']', '}'}
    ensures Follows(after + ([mark] + rest)) && SkipWs(after + ([mark] + rest)) == [mark] + rest
  {
    SkipBlank(after, [mark] + rest);
    if after != "" {
      assert (after + ([mark] + rest))[0] == after[0];
    }
  }

  lemma {:induction false} BeforeStarts(before: string, text: string, rest: string)
    requires Blank(before) && Starts(text)
    ensures SkipWs(before + text + rest) == text + rest && Starts(text + rest)
  {
    SkipBlank(before, text + rest);
    assert before + text + rest == before + (text + rest);
  }

  lemma {:induction false} TreeAccepts(t: Tree, v: Json, rest: string)
    requires Means(t, v) && Follows(rest)
    ensures ParseValue(TreeText(t) + rest) == Parsed(v, rest)
    decreases t, 1
  {
    match t
    case Word(text) => WordAccepts(text, v, rest);
    case Numeral(number) => NumeralAccepts(number, v, rest);
    case Literal(pieces) => LiteralAccepts(pieces, v.s, rest);
    case List(gap, slots) =>
      if slots == [] {
        EmptyList(gap, rest);
      } else {
        SlotsAccept(slots, v.items, rest);
        ListAccepts(SlotsText(slots), v.items, rest);
      }
    case Dict(gap, fields) =>
      if fields == [] {
        EmptyDict(gap, rest);
      } else {
        FieldsAccept(fields, v.entries, rest);
        DictAccepts(FieldsText(fields), v.entries, rest);
      }
  }

  lemma {:induction false} EmptyList(gap: string, rest: string)
    requires Blank(gap)
    ensures ParseValue("[" + gap + "]" + rest) == Parsed(Arr([]), rest)
  {
    var s := "[" + gap + "]" + rest;
    assert s[1..] == gap + ([']'] + rest);
    AfterFollows(gap, ']', rest);
    assert ([']'] + rest)[1..] == rest;
  }

  lemma {:induction false} EmptyDict(gap: string, rest: string)
    requires Blank(gap)
    ensures ParseValue("{" + gap + "}" + rest) == Parsed(Obj([]), rest)
  {
    var s := "{" + gap + "}" + rest;
    assert s[1..] == gap + (['}'] + rest);
    AfterFollows(gap, '}', rest);
    assert (['}'] + rest)[1..] == rest;
  }

  lemma {:induction false} ListAccepts(inner: string, items: seq<Json>, rest: string)
    requires var u := SkipWs(inner + "]" + rest); Starts(u) && ParseItems(u) == Parsed(items, rest)
    ensures ParseValue("[" + inner + "]" + rest) == Parsed(Arr(items), rest)
  {
    OpenList(inner + "]" + rest, items, rest);
    assert "[" + inner + "]" + rest == ['['] + (inner + "]" + rest);
  }

  lemma {:induction false} OpenList(t: string, items: seq<Json>, rest: string)
    requires Starts(SkipWs(t)) && ParseItems(SkipWs(t)) == Parsed(items, rest)
    ensures ParseValue(['['] + t) == Parsed(Arr(items), rest)
  {
    assert (['['] + t)[1..] == t;
  }

  lemma {:induction false} DictAccepts(inner: string, entries: seq<Member>, rest: string)
    requires var u := SkipWs(inner + "}" + rest); Starts(u) && ParseEntries(u) == Parsed(entries, rest)
    requires UniqueKeys(entries)
    ensures ParseValue("{" + inner + "}" + rest) == Parsed(Obj(entries), rest)
  {
    OpenDict(inner + "}" + rest, entries, rest);
    assert "{" + inner + "}" + rest == ['{'] + (inner + "}" + rest);
  }

  lemma {:induction false} OpenDict(t: string, entries: seq<Member>, rest: string)
    requires Starts(SkipWs(t)) && ParseEntries(SkipWs(t)) == Parsed(entries, rest) && UniqueKeys(entries)
    ensures ParseValue(['{'] + t) == Parsed(Obj(entries), rest)
  {
    assert (['{'] + t)[1..] == t;
  }

  lemma {:induction false} SlotsAccept(slots: seq<Slot>, items: seq<Json>, rest: string)
    requires slots != [] && SlotsMean(slots, items)
    ensures var u := SkipWs(SlotsText(slots) + "]" + rest); Starts(u) && ParseItems(u) == Parsed(items, rest)
    decreases slots, 0
  {
    var slot, v := slots[0], items[0];
    var text := TreeText(slot.tree);
    TreeStarts(slot.tree, v);
    if |slots| == 1 {
      var tail := slot.after + ([']'] + rest);
      AfterFollows(slot.after, ']', rest);
      TreeAccepts(slot.tree, v, tail);
      BeforeStarts(slot.before, text, tail);
      LastSlot(slot, rest);
      ItemsEnd(text + tail, v, tail, rest);
      assert items == [v];
    } else {
      var more := SlotsText(slots[1..]) + "]" + rest;
      var tail := slot.after + ([','] + more);
      AfterFollows(slot.after, ',', more);
      TreeAccepts(slot.tree, v, tail);
      BeforeStarts(slot.before, text, tail);
      SlotsAccept(slots[1..], items[1..], rest);
      FirstSlot(slots, rest);
      ItemsMore(text + tail, v, tail, more, items[1..], rest);
      assert items == [v] + items[1..];
    }
  }

  lemma {:induction false} LastSlot(slot: Slot, rest: string)
    ensures SlotText(slot) + "]" + rest == slot.before + TreeText(slot.tree) + (slot.after + ([']'] + rest))
  {
  }

  lemma {:induction false} FirstSlot(slots: seq<Slot>, rest: string)
    requires |slots| > 1
    ensures SlotsText(slots) + "]" + rest == slots[0].before + TreeText(slots[0].tree)
      + (slots[0].after + ([','] + (SlotsText(slots[1..]) + "]" + rest)))
  {
  }

  lemma {:induction false} FieldsAccept(fields: seq<FieldSlot>, entries: seq<Member>, rest: string)
    requires fields != [] && FieldsMean(fields, entries)
    ensures var u := SkipWs(FieldsText(fields) + "}" + rest); Starts(u) && ParseEntries(u) == Parsed(entries, rest)
    decreases fields, 0
  {
    var f, e := fields[0], entries[0];
    assert FieldMeans(f, e);
    TreeStarts(f.tree, e.value);
    if |fields| == 1 {
      var tail := f.after + (['}'] + rest);
      AfterFollows(f.after, '}', rest);
      TreeAccepts(f.tree, e.value, tail);
      FieldFront(f, e, tail);
      LastField(f, rest);
      EntriesEnd(FieldBody(f, tail), e.key, f.beforeValue + TreeText(f.tree) + tail, e.value, tail, rest);
      assert entries == [e];
    } else {
      var more := FieldsText(fields[1..]) + "}" + rest;
      var tail := f.after + ([','] + more);
      AfterFollows(f.after, ',', more);
      TreeAccepts(f.tree, e.value, tail);
      FieldFront(f, e, tail);
      FieldsAccept(fields[1..], entries[1..], rest);
      FirstField(fields, rest);
      EntriesMore(FieldBody(f, tail), e.key, f.beforeValue + TreeText(f.tree) + tail, e.value, tail, more,
                  entries[1..], rest);
      assert entries == [e] + entries[1..];
    }
  }

  /** A member from its name on. */
  function FieldBody(f: FieldSlot, tail: string): string {
    "\"" + (PiecesText(f.name) + "\"" + (f.afterName + ([':'] + (f.beforeValue + TreeText(f.tree) + tail))))
  }

  lemma {:induction false} FieldFront(f: FieldSlot, e: Member, tail: string)
    requires FieldMeans(f, e) && Starts(TreeText(f.tree))
    ensures var u, colon := FieldBody(f, tail), f.beforeValue + TreeText(f.tree) + tail;
      && Starts(u) && u[0] == '"' && ParseChars(u[1..]).Parsed? && ParseChars(u[1..]).value == e.key
      && SkipWs(ParseChars(u[1..]).rest) == ":" + colon
      && SkipWs(colon) == TreeText(f.tree) + tail
      && SkipWs(f.before + u) == u
  {
    var colon := f.beforeValue + TreeText(f.tree) + tail;
    var afterName := f.afterName + ([':'] + colon);
    var u := FieldBody(f, tail);
    assert u[1..] == PiecesText(f.name) + "\"" + afterName;
    CharsAccept(f.name, e.key, afterName);
    SkipBlank(f.afterName, [':'] + colon);
    BeforeStarts(f.beforeValue, TreeText(f.tree), tail);
    SkipBlank(f.before, u);
  }

  lemma {:induction false} LastField(f: FieldSlot, rest: string)
    ensures FieldSlotText(f) + "}" + rest == f.before + FieldBody(f, f.after + (['}'] + rest))
  {
    FieldThen(f, ['}'] + rest);
    assert FieldSlotText(f) + "}" + rest == FieldSlotText(f) + (['}'] + rest);
  }

  lemma {:induction false} FieldThen(f: FieldSlot, more: string)
    ensures FieldSlotText(f) + more == f.before + FieldBody(f, f.after + more)
  {
  }

  lemma {:induction false} FirstField(fields: seq<FieldSlot>, rest: string)
    requires |fields| > 1
    ensures FieldsText(fields) + "}" + rest
      == fields[0].before + FieldBody(fields[0], fields[0].after + ([','] + (FieldsText(fields[1..]) + "}" + rest)))
  {
    FieldThen(fields[0], [','] + (FieldsText(fields[1..]) + "}" + rest));
    CommaThen(FieldSlotText(fields[0]), FieldsText(fields[1..]), rest);
  }

  lemma {:induction false} CommaThen(a: string, b: string, rest: string)
    ensures a + "," + b + "}" + rest == a + ([','] + (b + "}" + rest))
  {
  }

  // ------------------------------------------------- nothing else is accepted

  lemma {:induction false} WordWritten(s: string, v: Json, rest: string) returns (t: Tree)
    requires s != "" && s[0] !in {'"', '[', '{'} && ParseValue(s) == Parsed(v, rest)
    ensures s == TreeText(t) + rest && Means(t, v)
  {
    if s[0] in {'n', 't', 'f'} {
      var n := if s[0] == 'f' then 5 else 4;
      t := Word(s[..n]);
      assert s == s[..n] + s[n..];
    } else {
      NotAWord(s, v, rest);
      var number := NumberWritten(s, v, rest);
      t := Numeral(number);
    }
  }

  lemma {:induction false} NotAWord(s: string, v: Json, rest: string)
    requires s != "" && s[0] !in {'"', '[', '{', 'n', 't', 'f'} && ParseValue(s) == Parsed(v, rest)
    ensures ParseNumber(s) == Parsed(v, rest)
  {
  }

  /** Every value that is read has been written. */
  lemma {:induction false} TreeWritten(s: string, v: Json, rest: string) returns (t: Tree)
    requires ParseValue(s) == Parsed(v, rest)
    ensures s == TreeText(t) + rest && Means(t, v)
    decreases |s|, 0
  {
    if s[0] == '"' {
      t := LiteralWritten(s, v, rest);
    } else if s[0] == '[' {
      var blank := SkippedBlank(s[1..]);
      var u := SkipWs(s[1..]);
      if u != "" && u[0] == ']' {
        t := List(blank, []);
        EmptyCut(s, blank, u);
      } else {
        var slots := ItemsWritten(blank, u, v.items, rest);
        t := List("", slots);
        InnerCut(s, SlotsText(slots), "]", rest);
      }
    } else if s[0] == '{' {
      var blank := SkippedBlank(s[1..]);
      var u := SkipWs(s[1..]);
      if u != "" && u[0] == '}' {
        t := Dict(blank, []);
        EmptyCut(s, blank, u);
      } else {
        var fields := EntriesWritten(blank, u, v.entries, rest);
        t := Dict("", fields);
        InnerCut(s, FieldsText(fields), "}", rest);
      }
    } else {
      t := WordWritten(s, v, rest);
    }
  }

  lemma {:induction false} LiteralWritten(s: string, v: Json, rest: string) returns (t: Tree)
    requires s != "" && s[0] == '"' && ParseValue(s) == Parsed(v, rest)
    ensures s == TreeText(t) + rest && Means(t, v)
  {
    var pieces := CharsWritten(s[1..], v.s, rest);
    t := Literal(pieces);
    assert s == [s[0]] + s[1..];
    assert s == "\"" + PiecesText(pieces) + "\"" + rest;
  }

  lemma {:induction false} EmptyCut(s: string, blank: string, u: string)
    requires s != "" && s[1..] == blank + u && u != ""
    ensures s == [s[0]] + blank + [u[0]] + u[1..]
  {
    assert s == [s[0]] + s[1..] && u == [u[0]] + u[1..];
  }

  lemma {:induction false} InnerCut(s: string, inner: string, close: string, rest: string)
    requires s != "" && s[1..] == inner + close + rest
    ensures s == [s[0]] + inner + close + rest
  {
    assert s == [s[0]] + s[1..];
  }

  lemma {:induction false} ItemsWritten(blank: string, t: string, items: seq<Json>, rest: string)
    returns (slots: seq<Slot>)
    requires Blank(blank) && ParseItems(t) == Parsed(items, rest)
    ensures slots != [] && SlotsMean(slots, items) && blank + t == SlotsText(slots) + "]" + rest
    decreases |t|, 1
  {
    var v, tail := ParseValue(t).value, ParseValue(t).rest;
    var tree := TreeWritten(t, v, tail);
    var after := SkippedBlank(tail);
    var u := SkipWs(tail);
    var slot := Slot(blank, tree, after);
    SlotCut(t, blank, TreeText(tree), after, u, tail);
    if u[0] == ']' {
      slots := [slot];
      LastSlot(slot, rest);
    } else {
      var gap := SkippedBlank(u[1..]);
      var more := ItemsWritten(gap, SkipWs(u[1..]), items[1..], rest);
      slots := [slot] + more;
      assert slots[1..] == more;
      FirstSlot(slots, rest);
      SlotsCons(slot, more, v, items);
    }
  }

  lemma {:induction false} SlotCut(t: string, blank: string, text: string, after: string, u: string, tail: string)
    requires t == text + tail && tail == after + u && u != ""
    ensures blank + t == blank + text + (after + ([u[0]] + u[1..]))
  {
    assert u == [u[0]] + u[1..];
  }

  lemma {:induction false} SlotsCons(slot: Slot, more: seq<Slot>, v: Json, items: seq<Json>)
    requires items != [] && items[0] == v && SlotsMean(more, items[1..])
    requires Blank(slot.before) && Means(slot.tree, v) && Blank(slot.after)
    ensures SlotsMean([slot] + more, items)
  {
    assert items == [v] + items[1..];
  }

  lemma {:induction false} EntriesWritten(blank: string, t: string, entries: seq<Member>, rest: string)
    returns (fields: seq<FieldSlot>)
    requires Blank(blank) && ParseEntries(t) == Parsed(entries, rest)
    ensures fields != [] && FieldsMean(fields, entries) && blank + t == FieldsText(fields) + "}" + rest
    decreases |t|, 1
  {
    var key, afterKey := ParseChars(t[1..]).value, ParseChars(t[1..]).rest;
    var name := CharsWritten(t[1..], key, afterKey);
    var afterName := SkippedBlank(afterKey);
    var colon := SkipWs(afterKey);
    var beforeValue := SkippedBlank(colon[1..]);
    var start := SkipWs(colon[1..]);
    var v, tail := ParseValue(start).value, ParseValue(start).rest;
    var tree := TreeWritten(start, v, tail);
    var after := SkippedBlank(tail);
    var u := SkipWs(tail);
    var f := FieldSlot(blank, name, afterName, beforeValue, tree, after);
    assert FieldMeans(f, Member(key, v));
    FieldCut(t, f, afterKey, colon, start, tail);
    assert u == [u[0]] + u[1..];
    if u[0] == '}' {
      fields := [f];
      LastField(f, rest);
      assert tail == after + (['}'] + rest);
    } else {
      var gap := SkippedBlank(u[1..]);
      var more := EntriesWritten(gap, SkipWs(u[1..]), entries[1..], rest);
      fields := [f] + more;
      assert fields[1..] == more;
      FirstField(fields, rest);
      assert tail == after + ([','] + (FieldsText(more) + "}" + rest));
      FieldsCons(f, more, entries);
    }
  }

  lemma {:induction false} FieldsCons(f: FieldSlot, more: seq<FieldSlot>, entries: seq<Member>)
    requires entries != [] && FieldMeans(f, entries[0]) && FieldsMean(more, entries[1..])
    ensures FieldsMean([f] + more, entries)
  {
    assert entries == [entries[0]] + entries[1..];
  }

  lemma {:induction false} FieldCut(
    t: string, f: FieldSlot, afterKey: string, colon: string, start: string, tail: string)
    requires t != "" && t[0] == '"' && t[1..] == PiecesText(f.name) + "\"" + afterKey
    requires afterKey == f.afterName + colon && colon != "" && colon[0] == ':'
    requires colon[1..] == f.beforeValue + start && start == TreeText(f.tree) + tail
    ensures t == FieldBody(f, tail)
  {
    assert colon == [':'] + (f.beforeValue + TreeText(f.tree) + tail);
    assert t == "\"" + t[1..];
  }

  // ------------------------------------------------------------- main result

  ghost predicate Writes(text: string, before: string, t: Tree, after: string, v: Json) {
    Blank(before) && Blank(after) && text == before + TreeText(t) + after && Means(t, v)
  }

  /** `json.loads` accepts exactly the texts of the grammar, and answers what they mean. */
  lemma {:induction false} LoadsExactly(text: string, v: Json)
    ensures Loads(text) == Ok(v) <==> exists before, t, after :: Writes(text, before, t, after, v)
  {
    if Loads(text) == Ok(v) {
      var before := SkippedBlank(text);
      var rest := ParseValue(SkipWs(text)).rest;
      var after := SkippedBlank(rest);
      var t := TreeWritten(SkipWs(text), v, rest);
      assert rest == after;
      assert Writes(text, before, t, after, v);
    }
    forall before, t, after | Writes(text, before, t, after, v) ensures Loads(text) == Ok(v) {
      WrittenLoads(text, before, t, after, v);
    }
  }

  lemma {:induction false} WrittenLoads(text: string, before: string, t: Tree, after: string, v: Json)
    requires Writes(text, before, t, after, v)
    ensures Loads(text) == Ok(v)
  {
    TreeStarts(t, v);
    BeforeStarts(before, TreeText(t), after);
    TreeAccepts(t, v, after);
    SkipBlank(after, "");
    assert after + "" == after;
  }

  // ---------------------------------------------------------- printed text

  /** A character written as `json.dumps` does: as it is, by its letter, or by its code in small letters. */
  ghost predicate Shortest(p: Piece, c: char) {
    var u := c as int;
    if u >= 0x20 && c != '"' && c != '\\' then p == Plain(c)
    else if c == '"' || c == '\\' || u == 0x08 || u == 0x09 || u == 0x0A || u == 0x0C || u == 0x0D then p.Short?
    else p == Unit("00" + ["0123456789abcdef"[u / 16], "0123456789abcdef"[u % 16]])
  }

  /** No white space anywhere, no leading zero or sign without need, every character at its shortest. */
  ghost predicate Compact(t: Tree, v: Json)
    decreases t, 1
  {
    match t
    case Word(_) => true
    case Numeral(n) => v.Int? ==> n.whole == NatText(if v.n < 0 then -v.n else v.n) && (n.minus <==> v.n < 0)
    case Literal(ps) => v.Str? && AllShortest(ps, v.s)
    case List(gap, slots) => gap == "" && v.Arr? && CompactSlots(slots, v.items)
    case Dict(gap, fields) => gap == "" && v.Obj? && CompactFields(fields, v.entries)
  }

  ghost predicate AllShortest(ps: seq<Piece>, s: string) {
    |ps| == |s| && forall i :: 0 <= i < |s| ==> Shortest(ps[i], s[i])
  }

  ghost predicate CompactSlots(slots: seq<Slot>, items: seq<Json>)
    decreases slots, 0
  {
    && |slots| == |items|
    && forall i :: 0 <= i < |slots| ==>
         slots[i].before == "" && slots[i].after == "" && Compact(slots[i].tree, items[i])
  }

  ghost predicate CompactFields(fields: seq<FieldSlot>, entries: seq<Member>)
    decreases fields, 0
  {
    |fields| == |entries| && forall i :: 0 <= i < |fields| ==> CompactField(fields[i], entries[i])
  }

  ghost predicate CompactField(f: FieldSlot, e: Member)
    decreases f, 2
  {
    && f.before == "" && AllShortest(f.name, e.key) && f.afterName == ""
    && f.beforeValue == "" && Compact(f.tree, e.value) && f.after == ""
  }

  lemma {:induction false} EscapedPiece(c: char) returns (p: Piece)
    ensures PieceText(p) == EscapeChar(c) && PieceMeans(p, c) && Shortest(p, c)
  {
    var u := c as int;
    if u >= 0x20 && c != '"' && c != '\\' {
      p := Plain(c);
    } else if c == '"' || c == '\\' || u == 0x08 || u == 0x09 || u == 0x0A || u == 0x0C || u == 0x0D {
      p := Short(EscapeChar(c)[1]);
    } else {
      p := ControlPiece(c);
    }
  }

  lemma {:induction false} ControlPiece(c: char) returns (p: Piece)
    requires c as int < 0x20 && c as int !in {0x08, 0x09, 0x0A, 0x0C, 0x0D}
    ensures PieceText(p) == EscapeChar(c) && PieceMeans(p, c) && Shortest(p, c)
  {
    var u := c as int;
    var hex := "00" + [HEX[u / 16], HEX[u % 16]];
    p := Unit(hex);
    assert DigitsAre(hex, 0, 0, u / 16, u % 16);
    assert EscapeChar(c) == "\\u00" + [HEX[u / 16], HEX[u % 16]];
    assert PieceText(p) == ['\\'] + ("u" + hex);
  }

  lemma {:induction false} EscapedPieces(s: string) returns (ps: seq<Piece>)
    ensures PiecesText(ps) == Escape(s) && PiecesMean(ps, s) && AllShortest(ps, s)
  {
    ps := [];
    if s != [] {
      var p := EscapedPiece(s[0]);
      var more := EscapedPieces(s[1..]);
      ps := [p] + more;
      assert ps[1..] == more;
    }
  }

  lemma {:induction false} IntegerText(n: int) returns (t: Tree)
    ensures TreeText(t) == IntText(n) && Means(t, Int(n)) && Compact(t, Int(n))
  {
    var digits := NatText(if n < 0 then -n else n);
    var number := Number(n < 0, digits, None, None);
    t := Numeral(number);
    assert NumberText(number) == IntText(n);
  }

  /** `json.dumps` prints the compact text of a value. */
  lemma {:induction false} RenderIsCompact(v: Json) returns (t: Tree)
    requires WellFormed(v)
    ensures TreeText(t) == Render(v) && Means(t, v) && Compact(t, v)
    decreases v, 1
  {
    match v
    case Null => t := Word("null");
    case Bool(b) => t := Word(if b then "true" else "false");
    case Int(n) => t := IntegerText(n);
    case Float(token) =>
      var number := NumberWritten(token, v, []);
      t := Numeral(number);
      assert token == NumberText(number) + [] == NumberText(number);
    case Str(s) =>
      var pieces := EscapedPieces(s);
      t := Literal(pieces);
    case Arr(items) =>
      var slots := RenderedSlots(items);
      t := List("", slots);
    case Obj(entries) =>
      var fields := RenderedFields(entries);
      t := Dict("", fields);
  }

  lemma {:induction false} RenderedSlots(items: seq<Json>) returns (slots: seq<Slot>)
    requires forall i :: 0 <= i < |items| ==> WellFormed(items[i])
    ensures SlotsText(slots) == RenderItems(items) && SlotsMean(slots, items) && CompactSlots(slots, items)
    decreases items, 0
  {
    slots := [];
    if items != [] {
      var tree := RenderIsCompact(items[0]);
      var more := RenderedSlots(items[1..]);
      var slot := Slot("", tree, "");
      slots := [slot] + more;
      assert slots[1..] == more;
      assert SlotText(slot) == TreeText(tree);
      SlotsCons(slot, more, items[0], items);
    }
  }

  lemma {:induction false} RenderedFields(entries: seq<Member>) returns (fields: seq<FieldSlot>)
    requires forall i :: 0 <= i < |entries| ==> WellFormed(entries[i].value)
    ensures FieldsText(fields) == RenderEntries(entries) && FieldsMean(fields, entries)
    ensures CompactFields(fields, entries)
    decreases entries, 0
  {
    fields := [];
    if entries != [] {
      var e := entries[0];
      var name := EscapedPieces(e.key);
      var tree := RenderIsCompact(e.value);
      var more := RenderedFields(entries[1..]);
      var f := FieldSlot("", name, "", "", tree, "");
      fields := [f] + more;
      assert fields[1..] == more;
      FieldRendered(f, e);
      assert FieldMeans(f, e) && CompactField(f, e);
      FieldsCons(f, more, entries);
    }
  }

  lemma {:induction false} FieldRendered(f: FieldSlot, e: Member)
    requires f.before == "" && f.afterName == "" && f.beforeValue == "" && f.after == ""
    requires PiecesText(f.name) == Escape(e.key) && TreeText(f.tree) == Render(e.value)
    ensures FieldSlotText(f) == RenderEntry(e)
  {
  }

  /** The members of every object, at every depth, in strictly ascending order of their names. */
  ghost predicate Ordered(v: Json)
    decreases v
  {
    match v
    case Arr(items) => forall i :: 0 <= i < |items| ==> Ordered(items[i])
    case Obj(entries) =>
      && (forall i, j :: 0 <= i < j < |entries| ==> StrLt(entries[i].key, entries[j].key))
      && forall i :: 0 <= i < |entries| ==> Ordered(entries[i].value)
    case _ => true
  }

  lemma {:induction false} CanonOrdered(v: Json)
    requires WellFormed(v)
    ensures Ordered(Canon(v))
    decreases v
  {
    match v
    case Arr(items) =>
      forall i | 0 <= i < |items| ensures Ordered(CanonItems(items)[i]) {
        CanonOrdered(items[i]);
      }
    case Obj(entries) =>
      forall i | 0 <= i < |entries| ensures Ordered(CanonEntries(entries)[i].value) {
        CanonOrdered(entries[i].value);
      }
      SortedOrdered(CanonEntries(entries));
    case _ =>
  }

  lemma {:induction false} SortedOrdered(entries: seq<Member>)
    requires UniqueKeys(entries) && forall i :: 0 <= i < |entries| ==> Ordered(entries[i].value)
    ensures Ordered(Obj(Sort(entries, KeyLe)))
  {
    var sorted := Sort(entries, KeyLe);
    KeyLeOrder();
    SortSorts(entries, KeyLe);
    SortUnique(entries);
    SameElements(sorted, entries);
    forall i | 0 <= i < |sorted| ensures Ordered(sorted[i].value) {
      assert sorted[i] in entries;
    }
    forall i, j | 0 <= i < j < |sorted| ensures StrLt(sorted[i].key, sorted[j].key) {
      assert KeyLe(sorted[i], sorted[j]) && sorted[i].key != sorted[j].key;
    }
  }

  /** `json.dumps(value, ensure_ascii=False, sort_keys=True, separators=(",", ":"))`, in full: the same
      data with its members in order, printed without white space and with the shortest escapes. */
  lemma {:induction false} DumpsIsCanonical(v: Json) returns (t: Tree)
    requires WellFormed(v)
    ensures Same(v, Canon(v)) && Ordered(Canon(v))
    ensures TreeText(t) == Dumps(v) && Means(t, Canon(v)) && Compact(t, Canon(v))
  {
    CanonWellFormed(v);
    CanonOrdered(v);
    CanonIdempotent(v);
    CanonImpliesSame(v, Canon(v));
    t := RenderIsCompact(Canon(v));
  }
}
