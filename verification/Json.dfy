/**
  JSON values as Python's `json` module reads and writes them.

  An object keeps its members in insertion order; a non-integer number keeps its text,
  which for a printed value is `repr(float)`.  Printing is
  `json.dumps(value, ensure_ascii=False, sort_keys=True, separators=(",", ":"))`,
  parsing is `json.loads(text, object_pairs_hook=<unique>, parse_constant=<reject>)`.
 */
module Json {
  import opened Text

  datatype Json =
    | Null
    | Bool(b: bool)
    | Int(n: int)
    | Float(token: string)
    | Str(s: string)
    | Arr(items: seq<Json>)
    | Obj(entries: seq<Member>)

  datatype Member = Member(key: string, value: Json)

  datatype Failure = Syntax | DuplicateKey | NonFinite

  datatype Parsed<+T> = Parsed(value: T, rest: string) | Failed(why: Failure)

  // ---------------------------------------------------------------- printing

  const HEX := "0123456789abcdef"

  function EscapeChar(c: char): (r: string)
    ensures r != []
  {
    var u := c as int;
    if c == '"' then "\\\""
    else if c == '\\' then "\\\\"
    else if u == 0x0A then "\\n"
    else if u == 0x0D then "\\r"
    else if u == 0x09 then "\\t"
    else if u == 0x0C then "\\f"
    else if u == 0x08 then "\\b"
    else if u < 0x20 then "\\u00" + [HEX[u / 16], HEX[u % 16]]
    else [c]
  }

  function Escape(s: string): string {
    if s == [] then [] else EscapeChar(s[0]) + Escape(s[1..])
  }

  function Quote(s: string): string {
    "\"" + Escape(s) + "\""
  }

  /** Compact text of a value, members in the order they are stored. */
  function Render(v: Json): string
    decreases v, 1
  {
    match v
    case Null => "null"
    case Bool(b) => if b then "true" else "false"
    case Int(n) => IntText(n)
    case Float(token) => token
    case Str(s) => Quote(s)
    case Arr(items) => "[" + RenderItems(items) + "]"
    case Obj(entries) => "{" + RenderEntries(entries) + "}"
  }

  function RenderItems(items: seq<Json>): string
    decreases items, 0
  {
    if items == [] then ""
    else if |items| == 1 then Render(items[0])
    else Render(items[0]) + "," + RenderItems(items[1..])
  }

  function RenderEntry(e: Member): string
    decreases e, 2
  {
    Quote(e.key) + ":" + Render(e.value)
  }

  function RenderEntries(entries: seq<Member>): string
    decreases entries, 0
  {
    if entries == [] then ""
    else if |entries| == 1 then RenderEntry(entries[0])
    else RenderEntry(entries[0]) + "," + RenderEntries(entries[1..])
  }

  predicate KeyLe(a: Member, b: Member) {
    StrLe(a.key, b.key)
  }

  /** The value with the members of every object, at every depth, in key order. */
  function Canon(v: Json): Json
    decreases v, 1
  {
    match v
    case Arr(items) => Arr(CanonItems(items))
    case Obj(entries) => Obj(Sort(CanonEntries(entries), KeyLe))
    case _ => v
  }

  function CanonItems(items: seq<Json>): (r: seq<Json>)
    ensures |r| == |items|
    ensures forall i :: 0 <= i < |items| ==> r[i] == Canon(items[i])
    decreases items, 0
  {
    if items == [] then [] else [Canon(items[0])] + CanonItems(items[1..])
  }

  function CanonEntry(e: Member): Member
    decreases e, 2
  {
    Member(e.key, Canon(e.value))
  }

  function CanonEntries(entries: seq<Member>): (r: seq<Member>)
    ensures |r| == |entries|
    ensures forall i :: 0 <= i < |entries| ==> r[i] == CanonEntry(entries[i])
    decreases entries, 0
  {
    if entries == [] then [] else [CanonEntry(entries[0])] + CanonEntries(entries[1..])
  }

  /** `json.dumps` with sorted keys. */
  function Dumps(v: Json): string {
    Render(Canon(v))
  }

  predicate UniqueKeys(entries: seq<Member>) {
    forall i, j :: 0 <= i < j < |entries| ==> entries[i].key != entries[j].key
  }

  /** A value Python can hold: dictionary keys are unique, floats print as JSON numbers. */
  predicate WellFormed(v: Json)
    decreases v
  {
    match v
    case Float(token) => IsFloatToken(token)
    case Arr(items) => forall i :: 0 <= i < |items| ==> WellFormed(items[i])
    case Obj(entries) => UniqueKeys(entries) && forall i :: 0 <= i < |entries| ==> WellFormed(entries[i].value)
    case _ => true
  }

  // ----------------------------------------------------------------- parsing

  predicate IsWs(c: char) {
    c == ' ' || c == '\t' || c == '\n' || c == '\r'
  }

  function SkipWs(s: string): (r: string)
    ensures |r| <= |s|
  {
    if s != [] && IsWs(s[0]) then SkipWs(s[1..]) else s
  }

  function DigitRun(s: string): (n: nat)
    ensures n <= |s|
    ensures AllDigits(s[..n])
  {
    if s != [] && IsDigit(s[0]) then
      var n := DigitRun(s[1..]);
      assert s[..n + 1] == [s[0]] + s[1..][..n];
      n + 1
    else 0
  }

  /** Length of `-?(0|[1-9][0-9]*)` at the front of `s`, zero when it does not match. */
  function IntPart(s: string): (n: nat)
    ensures n <= |s|
  {
    var k := if s != [] && s[0] == '-' then 1 else 0;
    if k < |s| && s[k] == '0' then k + 1
    else if k < |s| && IsDigit(s[k]) then k + DigitRun(s[k..])
    else 0
  }

  /** Length of `\.[0-9]+` at the front of `s`, zero when it does not match. */
  function FracPart(s: string): (n: nat)
    ensures n <= |s|
  {
    if |s| >= 2 && s[0] == '.' && IsDigit(s[1]) then 1 + DigitRun(s[1..]) else 0
  }

  /** Length of `[eE][-+]?[0-9]+` at the front of `s`, zero when it does not match. */
  function ExpPart(s: string): (n: nat)
    ensures n <= |s|
  {
    if s != [] && (s[0] == 'e' || s[0] == 'E') then
      var k := if |s| > 1 && (s[1] == '+' || s[1] == '-') then 2 else 1;
      var d := DigitRun(s[k..]);
      if d > 0 then k + d else 0
    else 0
  }

  /** The value of a matched number token. */
  function NumberOf(t: string, integer: bool): Json {
    if !integer then Float(t)
    else if t != [] && t[0] == '-' && AllDigits(t[1..]) then Int(-(NatValue(t[1..]) as int))
    else if AllDigits(t) then Int(NatValue(t))
    else Null
  }

  function ParseNumber(s: string): (r: Parsed<Json>)
    ensures r.Parsed? ==> |r.rest| < |s| && (r.value.Int? || r.value.Float?)
  {
    var i := IntPart(s);
    if i == 0 then Failed(Syntax)
    else
      IntPartDigits(s);
      var f := FracPart(s[i..]);
      var e := ExpPart(s[i + f..]);
      Parsed(NumberOf(s[..i + f + e], f + e == 0), s[i + f + e..])
  }

  lemma {:induction false} IntPartDigits(s: string)
    requires IntPart(s) > 0
    ensures var t := s[..IntPart(s)]; AllDigits(t) || (t[0] == '-' && AllDigits(t[1..]))
  {
    var t := s[..IntPart(s)];
    if s[0] == '-' {
      if s[1] != '0' {
        assert t[1..] == s[1..][..DigitRun(s[1..])];
      }
    } else if s[0] != '0' {
      assert s[0..] == s;
    }
  }

  predicate IsFloatToken(t: string) {
    ParseNumber(t) == Parsed(Float(t), [])
  }

  function HexValue(c: char): int {
    if IsDigit(c) then c as int - '0' as int
    else if 'a' <= c <= 'f' then c as int - 'a' as int + 10
    else if 'A' <= c <= 'F' then c as int - 'A' as int + 10
    else -1
  }

  /** Value of four hexadecimal digits at the front of `s`, or -1. */
  function Hex4(s: string): (u: int)
    ensures -1 <= u < 0x10000
    ensures u >= 0 ==> |s| >= 4
  {
    if |s| < 4 then -1
    else
      var a, b, c, d := HexValue(s[0]), HexValue(s[1]), HexValue(s[2]), HexValue(s[3]);
      if a < 0 || b < 0 || c < 0 || d < 0 then -1 else 0x1000 * a + 0x100 * b + 0x10 * c + d
  }

  /** One escape sequence after its backslash. */
  function ParseEscape(s: string): (r: Parsed<char>)
    ensures r.Parsed? ==> |r.rest| < |s|
  {
    if s == [] then Failed(Syntax)
    else
      match s[0]
      case '"' => Parsed('"', s[1..])
      case '\\' => Parsed('\\', s[1..])
      case '/' => Parsed('/', s[1..])
      case 'b' => Parsed(0x08 as char, s[1..])
      case 'f' => Parsed(0x0C as char, s[1..])
      case 'n' => Parsed(0x0A as char, s[1..])
      case 'r' => Parsed(0x0D as char, s[1..])
      case 't' => Parsed(0x09 as char, s[1..])
      case 'u' =>
        var u := Hex4(s[1..]);
        if u < 0 then Failed(Syntax)
        else if u < 0xD800 || 0xE000 <= u then Parsed(u as char, s[5..])
        else if u < 0xDC00 && |s| >= 7 && s[5] == '\\' && s[6] == 'u' then
          var w := Hex4(s[7..]);
          if 0xDC00 <= w < 0xE000 then
            Parsed((0x10000 + (u - 0xD800) * 0x400 + (w - 0xDC00)) as char, s[11..])
          else Failed(Syntax)
        else Failed(Syntax)
      case _ => Failed(Syntax)
  }

  /** The rest of a string literal after its opening quote. */
  function ParseChars(s: string): (r: Parsed<string>)
    ensures r.Parsed? ==> |r.rest| < |s|
    decreases |s|
  {
    if s == [] then Failed(Syntax)
    else if s[0] == '"' then Parsed([], s[1..])
    else if s[0] == '\\' then
      match ParseEscape(s[1..])
      case Failed(w) => Failed(w)
      case Parsed(c, rest) =>
        match ParseChars(rest)
        case Failed(w) => Failed(w)
        case Parsed(cs, end) => Parsed([c] + cs, end)
    else if (s[0] as int) < 0x20 then Failed(Syntax)
    else
      match ParseChars(s[1..])
      case Failed(w) => Failed(w)
      case Parsed(cs, end) => Parsed([s[0]] + cs, end)
  }

  /** The named constants and numbers. */
  function ParseScalar(s: string): (r: Parsed<Json>)
    requires s != []
    ensures r.Parsed? ==> |r.rest| < |s|
  {
    if s[0] == 'n' then if "null" <= s then Parsed(Null, s[4..]) else Failed(Syntax)
    else if s[0] == 't' then if "true" <= s then Parsed(Bool(true), s[4..]) else Failed(Syntax)
    else if s[0] == 'f' then if "false" <= s then Parsed(Bool(false), s[5..]) else Failed(Syntax)
    else if s[0] == 'N' then if "NaN" <= s then Failed(NonFinite) else Failed(Syntax)
    else if s[0] == 'I' then if "Infinity" <= s then Failed(NonFinite) else Failed(Syntax)
    else if |s| > 1 && s[0] == '-' && s[1] == 'I' then if "-Infinity" <= s then Failed(NonFinite) else Failed(Syntax)
    else ParseNumber(s)
  }

  function ParseValue(s: string): (r: Parsed<Json>)
    ensures r.Parsed? ==> |r.rest| < |s|
    decreases |s|, 0
  {
    if s == [] then Failed(Syntax)
    else if s[0] == '"' then
      match ParseChars(s[1..])
      case Failed(w) => Failed(w)
      case Parsed(cs, rest) => Parsed(Str(cs), rest)
    else if s[0] == '[' then
      var t := SkipWs(s[1..]);
      if t != [] && t[0] == ']' then Parsed(Arr([]), t[1..])
      else
        match ParseItems(t)
        case Failed(w) => Failed(w)
        case Parsed(items, rest) => Parsed(Arr(items), rest)
    else if s[0] == '{' then
      var t := SkipWs(s[1..]);
      if t != [] && t[0] == '}' then Parsed(Obj([]), t[1..])
      else
        match ParseEntries(t)
        case Failed(w) => Failed(w)
        case Parsed(entries, rest) =>
          if UniqueKeys(entries) then Parsed(Obj(entries), rest) else Failed(DuplicateKey)
    else ParseScalar(s)
  }

  /** Array items up to and including the closing bracket. */
  function ParseItems(s: string): (r: Parsed<seq<Json>>)
    ensures r.Parsed? ==> |r.rest| < |s|
    decreases |s|, 1
  {
    match ParseValue(s)
    case Failed(w) => Failed(w)
    case Parsed(v, after) =>
      var t := SkipWs(after);
      if t != [] && t[0] == ']' then Parsed([v], t[1..])
      else if t != [] && t[0] == ',' then
        match ParseItems(SkipWs(t[1..]))
        case Failed(w) => Failed(w)
        case Parsed(vs, rest) => Parsed([v] + vs, rest)
      else Failed(Syntax)
  }

  /** Object members up to and including the closing brace. */
  function ParseEntries(s: string): (r: Parsed<seq<Member>>)
    ensures r.Parsed? ==> |r.rest| < |s|
    decreases |s|, 1
  {
    if s == [] || s[0] != '"' then Failed(Syntax)
    else
      match ParseChars(s[1..])
      case Failed(w) => Failed(w)
      case Parsed(key, afterKey) =>
        var colon := SkipWs(afterKey);
        if colon == [] || colon[0] != ':' then Failed(Syntax)
        else
          match ParseValue(SkipWs(colon[1..]))
          case Failed(w) => Failed(w)
          case Parsed(v, after) =>
            var t := SkipWs(after);
            if t != [] && t[0] == '}' then Parsed([Member(key, v)], t[1..])
            else if t != [] && t[0] == ',' then
              match ParseEntries(SkipWs(t[1..]))
              case Failed(w) => Failed(w)
              case Parsed(es, rest) => Parsed([Member(key, v)] + es, rest)
            else Failed(Syntax)
  }

  /** `json.loads`: one value, nothing but white space around it. */
  function Loads(s: string): Result<Json, Failure>
  {
    match ParseValue(SkipWs(s))
    case Failed(w) => Err(w)
    case Parsed(v, rest) => if SkipWs(rest) == [] then Ok(v) else Err(Syntax)
  }

  // -------------------------------------------------------- scanning numbers

  /** What may follow a value inside printed text. */
  predicate Delimited(rest: string) {
    rest == [] || rest[0] == ',' || rest[0] == ']' || rest[0] == '}'
  }

  lemma {:induction false} DigitRunExtends(s: string, rest: string)
    requires rest == [] || !IsDigit(rest[0])
    ensures DigitRun(s + rest) == DigitRun(s)
  {
    if s == [] {
      assert s + rest == rest;
    } else {
      assert (s + rest)[1..] == s[1..] + rest;
      DigitRunExtends(s[1..], rest);
    }
  }

  lemma {:induction false} IntPartExtends(s: string, rest: string)
    requires s != [] && Delimited(rest)
    ensures IntPart(s + rest) == IntPart(s)
  {
    var k := if s[0] == '-' then 1 else 0;
    assert (s + rest)[k..] == s[k..] + rest;
    DigitRunExtends(s[k..], rest);
  }

  lemma {:induction false} FracPartExtends(s: string, rest: string)
    requires Delimited(rest)
    ensures FracPart(s + rest) == FracPart(s)
  {
    if s == [] {
      assert s + rest == rest;
    } else {
      assert (s + rest)[1..] == s[1..] + rest;
      DigitRunExtends(s[1..], rest);
    }
  }

  lemma {:induction false} ExpPartExtends(s: string, rest: string)
    requires Delimited(rest)
    ensures ExpPart(s + rest) == ExpPart(s)
  {
    if s == [] {
      assert s + rest == rest;
    } else {
      var k := if |s| > 1 && (s[1] == '+' || s[1] == '-') then 2 else 1;
      assert (s + rest)[k..] == s[k..] + rest;
      DigitRunExtends(s[k..], rest);
    }
  }

  lemma {:induction false} SliceConcat(t: string, rest: string, i: nat)
    requires i <= |t|
    ensures (t + rest)[i..] == t[i..] + rest
    ensures (t + rest)[..|t|] == t && (t + rest)[|t|..] == rest
  {
  }

  lemma {:induction false} NumberParts(t: string) returns (i: nat, f: nat, e: nat)
    requires ParseNumber(t).Parsed? && ParseNumber(t).rest == []
    ensures 0 < i == IntPart(t) && i + f <= |t| && f == FracPart(t[i..]) && e == ExpPart(t[i + f..])
    ensures i + f + e == |t|
    ensures ParseNumber(t).value == NumberOf(t, f + e == 0)
  {
    i := IntPart(t);
    f := FracPart(t[i..]);
    e := ExpPart(t[i + f..]);
    NumberFrom(t, i, f, e);
    assert t[..|t|] == t;
  }

  /** What follows a delimited number does not change its parts. */
  lemma {:induction false} PartsExtend(t: string, rest: string, i: nat, f: nat, e: nat)
    requires t != [] && Delimited(rest)
    requires 0 < i == IntPart(t) && i + f <= |t| && f == FracPart(t[i..]) && e == ExpPart(t[i + f..])
    requires i + f + e == |t|
    ensures i == IntPart(t + rest) && f == FracPart((t + rest)[i..]) && e == ExpPart((t + rest)[i + f..])
  {
    IntPartExtends(t, rest);
    SliceConcat(t, rest, i);
    FracPartExtends(t[i..], rest);
    SliceConcat(t, rest, i + f);
    ExpPartExtends(t[i + f..], rest);
  }

  /** A number token keeps its reading in front of a delimiter. */
  lemma {:induction false} ParseNumberExtends(t: string, rest: string)
    requires t != [] && Delimited(rest)
    requires ParseNumber(t).Parsed? && ParseNumber(t).rest == []
    ensures ParseNumber(t + rest) == Parsed(ParseNumber(t).value, rest)
  {
    var i, f, e := NumberParts(t);
    PartsExtend(t, rest, i, f, e);
    NumberFrom(t + rest, i, f, e);
    DropPrefix(t, rest);
  }

  lemma {:induction false} NumberFrom(s: string, i: nat, f: nat, e: nat)
    requires 0 < i == IntPart(s) && f == FracPart(s[i..]) && e == ExpPart(s[i + f..])
    ensures i + f + e <= |s|
    ensures ParseNumber(s) == Parsed(NumberOf(s[..i + f + e], f + e == 0), s[i + f + e..])
  {
  }

  lemma {:induction false} DigitRunAll(s: string)
    requires AllDigits(s)
    ensures DigitRun(s) == |s|
  {
    if s != [] {
      DigitRunAll(s[1..]);
    }
  }

  lemma {:induction false} ParseIntText(n: int)
    ensures ParseNumber(IntText(n)) == Parsed(Int(n), [])
  {
    var t := IntText(n);
    var d := NatText(if n < 0 then -n else n);
    if d[0] == '0' {
      assert |d| == 1;
    }
    IntPartWhole(t, d, n < 0);
    assert n < 0 ==> t[1..] == d;
    assert t[|t|..] == [] && t[..|t|] == t;
    NumberFrom(t, |t|, 0, 0);
  }

  lemma {:induction false} IntPartWhole(t: string, d: string, negative: bool)
    requires d != [] && AllDigits(d) && (d[0] == '0' ==> |d| == 1)
    requires t == (if negative then "-" + d else d)
    ensures IntPart(t) == |t|
  {
    DigitRunAll(d);
    if negative {
      assert t[1..] == d;
    } else {
      assert t[0..] == d;
    }
  }

  // -------------------------------------------------------------- round trip

  lemma {:induction false} HexDigits(u: int)
    requires 0 <= u < 0x20
    ensures Hex4("00" + [HEX[u / 16], HEX[u % 16]]) == u
  {
    assert forall d :: 0 <= d < 16 ==> HexValue(HEX[d]) == d;
    var s := "00" + [HEX[u / 16], HEX[u % 16]];
    assert s[0] == '0' && s[1] == '0' && s[2] == HEX[u / 16] && s[3] == HEX[u % 16];
  }

  /** Reading one escaped character back. */
  lemma {:induction false} ParseEscapedChar(c: char, rest: string)
    ensures ParseChars(EscapeChar(c) + rest) ==
      match ParseChars(rest) { case Failed(w) => Failed(w) case Parsed(cs, end) => Parsed([c] + cs, end) }
  {
    var u := c as int;
    var e := EscapeChar(c);
    var s := e + rest;
    if e == [c] {
      assert s[1..] == rest;
    } else if |e| == 2 {
      assert s[1..] == [e[1]] + rest;
      assert s[1..][1..] == rest;
      assert ParseEscape(s[1..]) == Parsed(c, rest);
    } else {
      var hex := "00" + [HEX[u / 16], HEX[u % 16]];
      assert e == "\\u" + hex;
      HexDigits(u);
      assert s[1..][1..] == hex + rest;
      assert Hex4(hex + rest) == Hex4(hex);
      assert s[1..][5..] == rest;
      assert s[1..][0] == 'u';
      assert ParseEscape(s[1..]) == Parsed(c, rest);
    }
  }

  lemma {:induction false} ParseEscaped(s: string, rest: string)
    ensures ParseChars(Escape(s) + "\"" + rest) == Parsed(s, rest)
  {
    var text := Escape(s) + "\"" + rest;
    if s == [] {
      assert text[1..] == rest;
    } else {
      var tail := Escape(s[1..]) + "\"" + rest;
      assert text == EscapeChar(s[0]) + tail;
      ParseEscapedChar(s[0], tail);
      ParseEscaped(s[1..], rest);
      assert s == [s[0]] + s[1..];
    }
  }

  lemma {:induction false} ParseQuoted(s: string, rest: string)
    ensures Quote(s) + rest != [] && (Quote(s) + rest)[0] == '"'
    ensures ParseChars((Quote(s) + rest)[1..]) == Parsed(s, rest)
  {
    assert (Quote(s) + rest)[1..] == Escape(s) + "\"" + rest;
    ParseEscaped(s, rest);
  }

  lemma {:induction false} NumberStart(t: string)
    requires ParseNumber(t).Parsed?
    ensures t != [] && (t[0] == '-' || IsDigit(t[0]))
    ensures t[0] == '-' ==> |t| > 1 && IsDigit(t[1])
  {
  }

  lemma {:induction false} NumberIsScalar(s: string)
    requires s != [] && (IsDigit(s[0]) || (s[0] == '-' && |s| > 1 && IsDigit(s[1])))
    ensures ParseValue(s) == ParseNumber(s)
  {
  }

  lemma {:induction false} ParseNumberValue(t: string, rest: string)
    requires Delimited(rest)
    requires ParseNumber(t).Parsed? && ParseNumber(t).rest == []
    ensures ParseValue(t + rest) == Parsed(ParseNumber(t).value, rest)
  {
    NumberStart(t);
    ParseNumberExtends(t, rest);
    NumberIsScalar(t + rest);
  }

  /** The first character of printed text is never white space. */
  lemma {:induction false} RenderStart(v: Json, rest: string)
    requires WellFormed(v)
    ensures Render(v) != [] && !IsWs(Render(v)[0]) && Render(v)[0] != ']' && Render(v)[0] != '}'
    ensures SkipWs(Render(v) + rest) == Render(v) + rest
  {
    if v.Float? {
      NumberStart(v.token);
    } else if v.Int? {
      ParseIntText(v.n);
      NumberStart(IntText(v.n));
    }
  }

  lemma {:induction false} ParseRenderedScalar(v: Json, rest: string)
    requires WellFormed(v) && Delimited(rest) && !v.Arr? && !v.Obj?
    ensures ParseValue(Render(v) + rest) == Parsed(v, rest)
  {
    var s := Render(v) + rest;
    match v
    case Null => assert s[4..] == rest;
    case Bool(b) => assert s[if b then 4 else 5..] == rest;
    case Int(n) =>
      ParseIntText(n);
      ParseNumberValue(IntText(n), rest);
    case Float(token) => ParseNumberValue(token, rest);
    case Str(cs) => ParseQuoted(cs, rest);
  }

  /** Reading back a printed value returns it, whatever delimiter follows. */
  lemma {:induction false} ParseRendered(v: Json, rest: string)
    requires WellFormed(v) && Delimited(rest)
    ensures ParseValue(Render(v) + rest) == Parsed(v, rest)
    decreases v, 1
  {
    match v
    case Arr(items) =>
      if items != [] {
        ParseRenderedItems(items, rest);
        ItemsStart(items, "]" + rest);
      }
      ParseArr(items, rest);
    case Obj(entries) =>
      if entries != [] {
        ParseRenderedEntries(entries, rest);
        EntriesStart(entries, "}" + rest);
      }
      ParseObj(entries, rest);
    case _ => ParseRenderedScalar(v, rest);
  }

  lemma {:induction false} UnfoldArr(s: string, t: string, items: seq<Json>, rest: string)
    requires s != [] && s[0] == '[' && s[1..] == t
    requires t != [] && SkipWs(t) == t
    requires if t[0] == ']' then items == [] && t[1..] == rest else ParseItems(t) == Parsed(items, rest)
    ensures ParseValue(s) == Parsed(Arr(items), rest)
  {
  }

  lemma {:induction false} UnfoldObj(s: string, t: string, entries: seq<Member>, rest: string)
    requires s != [] && s[0] == '{' && s[1..] == t
    requires t != [] && SkipWs(t) == t && UniqueKeys(entries)
    requires if t[0] == '}' then entries == [] && t[1..] == rest else ParseEntries(t) == Parsed(entries, rest)
    ensures ParseValue(s) == Parsed(Obj(entries), rest)
  {
  }

  lemma {:induction false} Bracketed(open: string, body: string, close: string, rest: string)
    requires |open| == 1 && |close| == 1
    ensures (open + body + close + rest)[0] == open[0]
    ensures (open + body + close + rest)[1..] == body + (close + rest)
  {
  }

  lemma {:induction false} NoWs(t: string)
    requires t != [] && !IsWs(t[0])
    ensures SkipWs(t) == t
  {
  }

  lemma {:induction false} ClosersAreNoWs()
    ensures !IsWs(']') && !IsWs('}') && !IsWs(':')
  {
  }

  lemma {:induction false} ParseArr(items: seq<Json>, rest: string)
    requires items != [] ==>
      var t := RenderItems(items) + ("]" + rest);
      t != [] && SkipWs(t) == t && t[0] != ']' && ParseItems(t) == Parsed(items, rest)
    ensures ParseValue(Render(Arr(items)) + rest) == Parsed(Arr(items), rest)
  {
    var t := RenderItems(items) + ("]" + rest);
    Bracketed("[", RenderItems(items), "]", rest);
    if items == [] {
      assert t == "]" + rest && t[1..] == rest;
      ClosersAreNoWs();
      NoWs(t);
    }
    UnfoldArr(Render(Arr(items)) + rest, t, items, rest);
  }

  lemma {:induction false} ParseObj(entries: seq<Member>, rest: string)
    requires UniqueKeys(entries)
    requires entries != [] ==>
      var t := RenderEntries(entries) + ("}" + rest);
      t != [] && SkipWs(t) == t && t[0] != '}' && ParseEntries(t) == Parsed(entries, rest)
    ensures ParseValue(Render(Obj(entries)) + rest) == Parsed(Obj(entries), rest)
  {
    var t := RenderEntries(entries) + ("}" + rest);
    Bracketed("{", RenderEntries(entries), "}", rest);
    if entries == [] {
      assert t == "}" + rest && t[1..] == rest;
      ClosersAreNoWs();
      NoWs(t);
    }
    UnfoldObj(Render(Obj(entries)) + rest, t, entries, rest);
  }

  lemma {:induction false} ItemsStart(items: seq<Json>, rest: string)
    requires items != [] && WellFormed(items[0])
    ensures var t := RenderItems(items) + rest;
            t != [] && SkipWs(t) == t && t[0] != ']'
  {
    RenderStart(items[0], "");
  }

  lemma {:induction false} EntriesStart(entries: seq<Member>, rest: string)
    requires entries != []
    ensures var t := RenderEntries(entries) + rest;
            t != [] && SkipWs(t) == t && t[0] != '}'
  {
    assert RenderEntry(entries[0])[0] == '"';
  }

  lemma {:induction false} UnfoldItems(s: string, v: Json, t: string, items: seq<Json>, rest: string)
    requires ParseValue(s) == Parsed(v, t) && t != [] && SkipWs(t) == t
    requires
      if t[0] == ']' then items == [v] && t[1..] == rest
      else
        && t[0] == ',' && SkipWs(t[1..]) == t[1..]
        && items != [] && items[0] == v && ParseItems(t[1..]) == Parsed(items[1..], rest)
    ensures ParseItems(s) == Parsed(items, rest)
  {
    assert items == [v] + items[1..];
  }

  /** What follows the first item inside a printed array. */
  function AfterItem(items: seq<Json>, rest: string): (more: string)
    requires items != []
    ensures more != [] && Delimited(more) && SkipWs(more) == more
    ensures |items| == 1 ==> more[0] == ']' && more[1..] == rest
    ensures |items| > 1 ==> more[0] == ',' && more[1..] == RenderItems(items[1..]) + ("]" + rest)
    ensures RenderItems(items) + ("]" + rest) == Render(items[0]) + more
  {
    if |items| == 1 then "]" + rest
    else
      var tail := RenderItems(items[1..]) + ("]" + rest);
      assert Render(items[0]) + "," + RenderItems(items[1..]) + ("]" + rest) == Render(items[0]) + ("," + tail);
      "," + tail
  }

  lemma {:induction false} ParseRenderedItems(items: seq<Json>, rest: string)
    requires items != [] && forall i :: 0 <= i < |items| ==> WellFormed(items[i])
    ensures ParseItems(RenderItems(items) + ("]" + rest)) == Parsed(items, rest)
    decreases items, 0
  {
    var more := AfterItem(items, rest);
    ParseRendered(items[0], more);
    if |items| > 1 {
      ItemsStart(items[1..], "]" + rest);
      ParseRenderedItems(items[1..], rest);
    }
    UnfoldItems(Render(items[0]) + more, items[0], more, items, rest);
  }

  lemma {:induction false} ParseRenderedMember(e: Member, more: string)
    requires WellFormed(e.value) && Delimited(more)
    ensures ParseValue(Render(e.value) + more) == Parsed(e.value, more)
    decreases e, 2
  {
    ParseRendered(e.value, more);
  }

  lemma {:induction false} UnfoldEntries(
    s: string, key: string, colon: string, v: Json, t: string, entries: seq<Member>, rest: string)
    requires s != [] && s[0] == '"' && ParseChars(s[1..]) == Parsed(key, colon)
    requires colon != [] && colon[0] == ':' && SkipWs(colon[1..]) == colon[1..]
    requires ParseValue(colon[1..]) == Parsed(v, t) && t != [] && SkipWs(t) == t
    requires
      if t[0] == '}' then entries == [Member(key, v)] && t[1..] == rest
      else
        && t[0] == ',' && SkipWs(t[1..]) == t[1..]
        && entries != [] && entries[0] == Member(key, v) && ParseEntries(t[1..]) == Parsed(entries[1..], rest)
    ensures ParseEntries(s) == Parsed(entries, rest)
  {
    assert entries == [Member(key, v)] + entries[1..];
    ClosersAreNoWs();
    NoWs(colon);
  }

  /** What follows the first member inside a printed object. */
  function AfterMember(entries: seq<Member>, rest: string): (more: string)
    requires entries != []
    ensures more != [] && Delimited(more) && SkipWs(more) == more
    ensures |entries| == 1 ==> more[0] == '}' && more[1..] == rest
    ensures |entries| > 1 ==> more[0] == ',' && more[1..] == RenderEntries(entries[1..]) + ("}" + rest)
    ensures RenderEntries(entries) + ("}" + rest) == RenderEntry(entries[0]) + more
  {
    if |entries| == 1 then "}" + rest
    else
      var tail := RenderEntries(entries[1..]) + ("}" + rest);
      assert RenderEntry(entries[0]) + "," + RenderEntries(entries[1..]) + ("}" + rest)
          == RenderEntry(entries[0]) + ("," + tail);
      "," + tail
  }

  lemma {:induction false} MemberGlue(key: string, value: string, more: string)
    ensures key + ":" + value + more == key + (":" + (value + more))
    ensures (":" + (value + more))[1..] == value + more
  {
  }

  lemma {:induction false} MemberText(e: Member, more: string) returns (colon: string)
    ensures colon != [] && colon[0] == ':' && colon[1..] == Render(e.value) + more
    ensures var s := RenderEntry(e) + more; s != [] && s[0] == '"' && ParseChars(s[1..]) == Parsed(e.key, colon)
  {
    var value := Render(e.value);
    colon := ":" + (value + more);
    MemberGlue(Quote(e.key), value, more);
    ParseQuoted(e.key, colon);
  }

  lemma {:induction false} ParseRenderedEntries(entries: seq<Member>, rest: string)
    requires entries != [] && forall i :: 0 <= i < |entries| ==> WellFormed(entries[i].value)
    ensures ParseEntries(RenderEntries(entries) + ("}" + rest)) == Parsed(entries, rest)
    decreases entries, 0
  {
    var e := entries[0];
    var more := AfterMember(entries, rest);
    ParseRenderedMember(e, more);
    RenderStart(e.value, more);
    if |entries| > 1 {
      EntriesStart(entries[1..], "}" + rest);
      ParseRenderedEntries(entries[1..], rest);
    }
    var colon := MemberText(e, more);
    UnfoldEntries(RenderEntry(e) + more, e.key, colon, e.value, more, entries, rest);
  }

  /** `json.loads(<compact text>)` gives the printed value back. */
  lemma {:induction false} LoadsRender(v: Json)
    requires WellFormed(v)
    ensures Loads(Render(v)) == Ok(v)
  {
    RenderStart(v, "");
    assert Render(v) + "" == Render(v);
    ParseRendered(v, "");
  }

  lemma {:induction false} RenderInjective(a: Json, b: Json)
    requires WellFormed(a) && WellFormed(b) && Render(a) == Render(b)
    ensures a == b
  {
    LoadsRender(a);
    LoadsRender(b);
  }
}
