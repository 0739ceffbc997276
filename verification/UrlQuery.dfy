/**
  The query part of a normalised URL: `parse_qsl`, the tracking filter, the sort and
  `urlencode`, as Python 3.13's `urllib.parse` defines them.
 */
module UrlQuery {
  import opened Text
  import opened Utf8
  import opened Pieces

  datatype Pair = Pair(key: string, value: string)

  // ------------------------------------------------------------- hex digits

  predicate IsHex(c: char) {
    '0' <= c <= '9' || 'A' <= c <= 'F' || 'a' <= c <= 'f'
  }

  function HexValue(c: char): (d: int)
    requires IsHex(c)
    ensures 0 <= d < 16
  {
    if c <= '9' then c as int - '0' as int
    else if c <= 'F' then c as int - 'A' as int + 10
    else c as int - 'a' as int + 10
  }

  function HexDigit(d: int): (c: char)
    requires 0 <= d < 16
    ensures IsHex(c) && HexValue(c) == d
    ensures '0' <= c <= '9' || 'A' <= c <= 'F'
  {
    if d < 10 then ('0' as int + d) as char else ('A' as int + d - 10) as char
  }

  // ----------------------------------------------------------------- quoting

  predicate Unreserved(c: char) {
    '0' <= c <= '9' || 'A' <= c <= 'Z' || 'a' <= c <= 'z' || c == '_' || c == '.' || c == '-' || c == '~'
  }

  /** What `quote_plus` may produce. */
  predicate Quoted(c: char) {
    Unreserved(c) || c == '+' || c == '%'
  }

  function QuoteByte(b: Byte): (s: string)
    ensures s != [] && forall i :: 0 <= i < |s| ==> Quoted(s[i])
  {
    if b == 0x20 then "+"
    else if b < 0x80 && Unreserved(b as char) then [b as char]
    else ['%', HexDigit(b / 16), HexDigit(b % 16)]
  }

  function QuoteBytes(bs: seq<Byte>): (s: string)
    ensures forall i :: 0 <= i < |s| ==> Quoted(s[i])
  {
    if bs == [] then [] else QuoteByte(bs[0]) + QuoteBytes(bs[1..])
  }

  /** `quote_plus(s)`. */
  function QuotePlus(s: string): (r: string)
    ensures forall i :: 0 <= i < |r| ==> Quoted(r[i])
  {
    QuoteBytes(Encode(s))
  }

  // --------------------------------------------------------------- unquoting

  predicate IsWide(c: char) {
    c as int >= 0x80
  }

  /** `unquote_to_bytes` of an ASCII run: a '%' without two hexadecimal digits stays. */
  function UnquoteBytes(run: string): seq<Byte>
    requires IsAscii(run)
    decreases |run|
  {
    if run == [] then []
    else if run[0] == '%' && |run| >= 3 && IsHex(run[1]) && IsHex(run[2]) then
      [16 * HexValue(run[1]) + HexValue(run[2])] + UnquoteBytes(run[3..])
    else [run[0] as int] + UnquoteBytes(run[1..])
  }

  lemma {:induction false} RunIsAscii(s: string)
    ensures IsAscii(Upto(s, IsWide))
  {
    var run := Upto(s, IsWide);
    assert forall i :: 0 <= i < |run| ==> !IsWide(run[i]);
  }

  /** `unquote(s)`: each run of ASCII is decoded on its own, with replacement. */
  function Unquote(s: string): string
    decreases |s|
  {
    if s == [] then []
    else if IsWide(s[0]) then [s[0]] + Unquote(s[1..])
    else
      RunIsAscii(s);
      var run := Upto(s, IsWide);
      DecodeReplacing(UnquoteBytes(run)) + Unquote(s[|run|..])
  }

  function Space(c: char): char {
    if c == '+' then ' ' else c
  }

  /** `s.replace("+", " ")`. */
  function Spaced(s: string): (r: string)
    ensures |r| == |s| && forall i :: 0 <= i < |s| ==> r[i] == Space(s[i])
  {
    if s == [] then [] else [Space(s[0])] + Spaced(s[1..])
  }

  /** `unquote_plus(s)`. */
  function UnquotePlus(s: string): string {
    Unquote(Spaced(s))
  }

  lemma {:induction false} SpacedConcat(a: string, b: string)
    ensures Spaced(a + b) == Spaced(a) + Spaced(b)
  {
  }

  lemma {:induction false} UnquoteQuotedByte(b: Byte, rest: string)
    requires IsAscii(rest)
    ensures IsAscii(Spaced(QuoteByte(b)) + rest)
    ensures UnquoteBytes(Spaced(QuoteByte(b)) + rest) == [b] + UnquoteBytes(rest)
  {
    var q := Spaced(QuoteByte(b));
    assert q != [];
    if |q| == 1 {
      assert (q + rest)[1..] == rest;
    } else {
      assert q == ['%', HexDigit(b / 16), HexDigit(b % 16)];
      assert (q + rest)[3..] == rest;
      assert 16 * (b / 16) + b % 16 == b;
    }
  }

  lemma {:induction false} UnquoteQuotedBytes(bs: seq<Byte>)
    ensures IsAscii(Spaced(QuoteBytes(bs)))
    ensures UnquoteBytes(Spaced(QuoteBytes(bs))) == bs
  {
    if bs != [] {
      UnquoteQuotedBytes(bs[1..]);
      SpacedConcat(QuoteByte(bs[0]), QuoteBytes(bs[1..]));
      UnquoteQuotedByte(bs[0], Spaced(QuoteBytes(bs[1..])));
      assert bs == [bs[0]] + bs[1..];
    }
  }

  lemma {:induction false} UnquoteAscii(s: string)
    requires IsAscii(s)
    ensures Unquote(s) == DecodeReplacing(UnquoteBytes(s))
  {
    if s != [] {
      assert Free(s, IsWide);
      UptoFree(s, IsWide);
      assert Unquote(s[|s|..]) == [];
    }
  }

  /** Unquoting undoes quoting, for every text. */
  lemma {:induction false} UnquoteQuoted(s: string)
    ensures UnquotePlus(QuotePlus(s)) == s
  {
    UnquoteQuotedBytes(Encode(s));
    UnquoteAscii(Spaced(QuotePlus(s)));
    RoundTrip(s);
  }

  // ------------------------------------------------------------ the pair list

  /** `name, _, value = piece.partition("=")`, both unquoted. */
  function ReadPair(piece: string): Pair {
    Pair(UnquotePlus(Upto(piece, Is('='))), UnquotePlus(After(piece, Is('='))))
  }

  function ReadPieces(pieces: seq<string>): seq<Pair> {
    if pieces == [] then []
    else (if pieces[0] == "" then [] else [ReadPair(pieces[0])]) + ReadPieces(pieces[1..])
  }

  /** `parse_qsl(query, keep_blank_values=True, strict_parsing=False)`. */
  function ParseQuery(query: string): seq<Pair> {
    ReadPieces(Split(query, '&'))
  }

  function ShowPair(p: Pair): (r: string)
    ensures r != []
  {
    QuotePlus(p.key) + ['='] + QuotePlus(p.value)
  }

  function ShowPairs(pairs: seq<Pair>): (r: seq<string>)
    ensures |r| == |pairs| && forall i :: 0 <= i < |pairs| ==> r[i] == ShowPair(pairs[i])
  {
    if pairs == [] then [] else [ShowPair(pairs[0])] + ShowPairs(pairs[1..])
  }

  /** `urlencode(pairs)`. */
  function EncodeQuery(pairs: seq<Pair>): string {
    Join(ShowPairs(pairs), '&')
  }

  lemma {:induction false} QuotedFree(s: string, c: char)
    requires !Quoted(c)
    ensures Free(QuotePlus(s), Is(c))
  {
  }

  lemma {:induction false} ReadShownPair(p: Pair)
    ensures ReadPair(ShowPair(p)) == p
    ensures Free(ShowPair(p), Is('&'))
  {
    QuotedFree(p.key, '=');
    AfterStop(QuotePlus(p.key), '=', QuotePlus(p.value));
    UnquoteQuoted(p.key);
    UnquoteQuoted(p.value);
    QuotedFree(p.key, '&');
    QuotedFree(p.value, '&');
  }

  lemma {:induction false} ReadShownPairs(pairs: seq<Pair>)
    ensures ReadPieces(ShowPairs(pairs)) == pairs
    ensures forall i :: 0 <= i < |pairs| ==> Free(ShowPairs(pairs)[i], Is('&'))
  {
    if pairs != [] {
      ReadShownPair(pairs[0]);
      ReadShownPairs(pairs[1..]);
      assert pairs == [pairs[0]] + pairs[1..];
    }
  }

  /** Parsing an encoded pair list gives the list back. */
  lemma {:induction false} ParseEncoded(pairs: seq<Pair>)
    ensures ParseQuery(EncodeQuery(pairs)) == pairs
  {
    if pairs == [] {
      assert Split("", '&') == [""];
      assert ReadPieces([""]) == ReadPieces([]);
    } else {
      ReadShownPairs(pairs);
      SplitJoin(ShowPairs(pairs), '&');
    }
  }

  // ------------------------------------------------------ any query, as written

  /** One hexadecimal digit of either case. */
  ghost predicate Spells(c: char, d: int) {
    0 <= d < 16 && (c == "0123456789abcdef"[d] || c == "0123456789ABCDEF"[d])
  }

  lemma {:induction false} SpelledValue(c: char, d: int)
    ensures Spells(c, d) <==> IsHex(c) && HexValue(c) == d
  {
    var low, high := "0123456789abcdef", "0123456789ABCDEF";
    if 0 <= d < 10 {
      assert low[d] as int == '0' as int + d && high[d] as int == '0' as int + d;
    } else if 10 <= d < 16 {
      assert low[d] as int == 'a' as int + d - 10 && high[d] as int == 'A' as int + d - 10;
    }
  }

  /** Letters, digits and "_.-~" are written as they are, a space as '+', any other byte as an escape in
      capital digits. */
  lemma {:induction false} QuoteWrites(b: Byte)
    ensures var plain := 0x30 <= b <= 0x39 || 0x41 <= b <= 0x5A || 0x61 <= b <= 0x7A || b in {0x5F, 0x2E, 0x2D, 0x7E};
      if plain then QuoteByte(b) == [b as char]
      else if b == 0x20 then QuoteByte(b) == "+"
      else QuoteByte(b) == ['%', "0123456789ABCDEF"[b / 16], "0123456789ABCDEF"[b % 16]]
  {
    var high := "0123456789ABCDEF";
    forall d | 0 <= d < 16 ensures high[d] == HexDigit(d) {
      assert high[d] as int == if d < 10 then '0' as int + d else 'A' as int + d - 10;
    }
  }

  /** An escape is read as its byte, in either case of its digits; every other character of the run,
      a '%' without two digits after it included, as itself. */
  lemma {:induction false} UnquoteReads(run: string)
    requires IsAscii(run) && run != []
    ensures forall h, l :: |run| >= 3 && run[0] == '%' && Spells(run[1], h) && Spells(run[2], l) ==>
      UnquoteBytes(run) == [16 * h + l] + UnquoteBytes(run[3..])
    ensures !(|run| >= 3 && run[0] == '%' && exists h, l :: Spells(run[1], h) && Spells(run[2], l)) ==>
      UnquoteBytes(run) == [run[0] as int] + UnquoteBytes(run[1..])
  {
    if |run| >= 3 && run[0] == '%' {
      forall d ensures Spells(run[1], d) <==> IsHex(run[1]) && HexValue(run[1]) == d {
        SpelledValue(run[1], d);
      }
      forall d ensures Spells(run[2], d) <==> IsHex(run[2]) && HexValue(run[2]) == d {
        SpelledValue(run[2], d);
      }
      if IsHex(run[1]) && IsHex(run[2]) {
        assert Spells(run[1], HexValue(run[1])) && Spells(run[2], HexValue(run[2]));
      }
    }
  }

  /** A wide character stays, and the runs of ASCII on its sides are decoded each on its own. */
  lemma {:induction false} UnquoteRuns(run: string, w: char, rest: string)
    requires IsAscii(run) && w as int >= 0x80
    ensures Unquote(run + [w] + rest) == DecodeReplacing(UnquoteBytes(run)) + [w] + Unquote(rest)
  {
    var s := run + [w] + rest;
    assert ([w] + rest)[1..] == rest;
    if run == "" {
      assert s == [w] + rest && DecodeReplacing(UnquoteBytes("")) == "";
      assert s[0] == w;
    } else {
      assert Free(run, IsWide);
      UptoStop(run, IsWide, [w] + rest);
      assert s == run + ([w] + rest) && s[|run|..] == [w] + rest;
      assert s[0] == run[0];
    }
  }

  /** A parameter as written: a name, and a value after an equals sign. */
  datatype Field = Field(name: string, value: Option<string>)

  function FieldText(f: Field): string {
    f.name + if f.value.Some? then ['='] + f.value.value else ""
  }

  function FieldTexts(fields: seq<Field>): (r: seq<string>)
    ensures |r| == |fields| && forall i :: 0 <= i < |fields| ==> r[i] == FieldText(fields[i])
  {
    if fields == [] then [] else [FieldText(fields[0])] + FieldTexts(fields[1..])
  }

  ghost predicate WellWritten(f: Field) {
    && FieldText(f) != "" && '=' !in f.name && '&' !in f.name
    && (f.value.Some? ==> '&' !in f.value.value)
  }

  function FieldPair(f: Field): Pair {
    Pair(UnquotePlus(f.name), UnquotePlus(if f.value.Some? then f.value.value else ""))
  }

  lemma {:induction false} ReadField(f: Field)
    requires WellWritten(f)
    ensures Free(FieldText(f), Is('&')) && ReadPair(FieldText(f)) == FieldPair(f)
  {
    if f.value.Some? {
      assert FieldText(f) == f.name + ['='] + f.value.value;
      AfterStop(f.name, '=', f.value.value);
    } else {
      assert FieldText(f) == f.name;
      UptoFree(f.name, Is('='));
    }
  }

  lemma {:induction false} ReadFields(fields: seq<Field>)
    requires forall i :: 0 <= i < |fields| ==> WellWritten(fields[i])
    ensures |ReadPieces(FieldTexts(fields))| == |fields|
    ensures forall i :: 0 <= i < |fields| ==>
      Free(FieldTexts(fields)[i], Is('&')) && ReadPieces(FieldTexts(fields))[i] == FieldPair(fields[i])
  {
    if fields != [] {
      ReadField(fields[0]);
      ReadFields(fields[1..]);
      assert FieldTexts(fields)[1..] == FieldTexts(fields[1..]);
    }
  }

  /** Parameters joined by ampersands are read one for one, without a value as with an empty one. */
  lemma {:induction false} ParseWritten(fields: seq<Field>)
    requires fields != [] && forall i :: 0 <= i < |fields| ==> WellWritten(fields[i])
    ensures var pairs := ParseQuery(Join(FieldTexts(fields), '&'));
      |pairs| == |fields| && forall i :: 0 <= i < |fields| ==> pairs[i] == FieldPair(fields[i])
  {
    ReadFields(fields);
    SplitJoin(FieldTexts(fields), '&');
  }

  /** Empty parameters do not count. */
  lemma {:induction false} EmptyFields(a: string, b: string)
    ensures ParseQuery(a + ['&'] + b) == ParseQuery(a) + ParseQuery(b) && ParseQuery("") == []
  {
    SplitConcat(a, '&', b);
    ReadConcat(Split(a, '&'), Split(b, '&'));
    assert Split("", '&') == [""];
    assert ReadPieces([""]) == ReadPieces([]);
  }

  lemma {:induction false} ReadConcat(a: seq<string>, b: seq<string>)
    ensures ReadPieces(a + b) == ReadPieces(a) + ReadPieces(b)
  {
    if a == [] {
      assert a + b == b;
    } else {
      ReadConcat(a[1..], b);
      ReadFirst(a, b);
    }
  }

  lemma {:induction false} ReadFirst(a: seq<string>, b: seq<string>)
    requires a != []
    ensures ReadPieces(a + b) == (if a[0] == "" then [] else [ReadPair(a[0])]) + ReadPieces(a[1..] + b)
  {
    assert (a + b)[1..] == a[1..] + b;
  }

  predicate QueryChar(c: char) {
    Quoted(c) || c == '=' || c == '&'
  }

  lemma {:induction false} EncodedChars(pairs: seq<Pair>)
    ensures All(EncodeQuery(pairs), QueryChar)
    ensures EncodeQuery(pairs) == "" <==> pairs == []
  {
    JoinChars(ShowPairs(pairs), '&', QueryChar);
  }

  // ------------------------------------------------------------ normalisation

  /** Tuple order on (key, value). */
  predicate PairLe(a: Pair, b: Pair) {
    StrLt(a.key, b.key) || (a.key == b.key && StrLe(a.value, b.value))
  }

  lemma {:induction false} PairLeOrder()
    ensures TotalPreorder(PairLe)
    ensures forall x, y :: PairLe(x, y) && PairLe(y, x) ==> x == y
  {
    StrLeTotalOrder();
    forall x, y ensures PairLe(x, y) || PairLe(y, x) {
      assert StrLe(x.key, y.key) || StrLe(y.key, x.key);
      assert StrLe(x.value, y.value) || StrLe(y.value, x.value);
    }
    forall x, y, z | PairLe(x, y) && PairLe(y, z) ensures PairLe(x, z) {
      PairLeTransitive(x, y, z);
    }
    forall x, y | PairLe(x, y) && PairLe(y, x) ensures x == y {
      PairLeAntisymmetric(x, y);
    }
  }

  lemma {:induction false} PairLeTransitive(x: Pair, y: Pair, z: Pair)
    requires PairLe(x, y) && PairLe(y, z)
    ensures PairLe(x, z)
  {
    if StrLt(x.key, y.key) && StrLt(y.key, z.key) {
      StrLtTransitive(x.key, y.key, z.key);
    } else if StrLt(x.value, y.value) && StrLt(y.value, z.value) {
      StrLtTransitive(x.value, y.value, z.value);
    }
  }

  lemma {:induction false} PairLeAntisymmetric(x: Pair, y: Pair)
    requires PairLe(x, y) && PairLe(y, x)
    ensures x == y
  {
    StrLtIrreflexive(x.key);
    StrLtIrreflexive(x.value);
    if StrLt(x.key, y.key) && StrLt(y.key, x.key) {
      StrLtTransitive(x.key, y.key, x.key);
    } else if StrLt(x.value, y.value) && StrLt(y.value, x.value) {
      StrLtTransitive(x.value, y.value, x.value);
    }
  }

  function Filter(pairs: seq<Pair>, keep: Pair -> bool): (r: seq<Pair>)
    ensures forall p :: p in r <==> p in pairs && keep(p)
  {
    if pairs == [] then []
    else (if keep(pairs[0]) then [pairs[0]] else []) + Filter(pairs[1..], keep)
  }

  /** The pairs a URL's query stands for once tracking parameters are dropped. */
  function Meaning(query: string, keep: Pair -> bool): seq<Pair> {
    Filter(ParseQuery(query), keep)
  }

  function NormalQuery(query: string, keep: Pair -> bool): string {
    EncodeQuery(Sort(Meaning(query, keep), PairLe))
  }

  lemma {:induction false} FilterCounts(pairs: seq<Pair>, keep: Pair -> bool, p: Pair)
    ensures multiset(Filter(pairs, keep))[p] == if keep(p) then multiset(pairs)[p] else 0
  {
    if pairs != [] {
      FilterCounts(pairs[1..], keep, p);
      assert pairs == [pairs[0]] + pairs[1..];
      assert multiset(pairs) == multiset([pairs[0]]) + multiset(pairs[1..]);
      var kept := if keep(pairs[0]) then [pairs[0]] else [];
      assert Filter(pairs, keep) == kept + Filter(pairs[1..], keep);
      assert multiset(Filter(pairs, keep)) == multiset(kept) + multiset(Filter(pairs[1..], keep));
    }
  }

  lemma {:induction false} FilterAll(pairs: seq<Pair>, keep: Pair -> bool)
    requires forall p :: p in pairs ==> keep(p)
    ensures Filter(pairs, keep) == pairs
  {
    if pairs != [] {
      assert pairs[0] in pairs;
      FilterAll(pairs[1..], keep);
      assert pairs == [pairs[0]] + pairs[1..];
    }
  }

  /** The normal query has the same pairs as the original, in order, and no dropped ones. */
  lemma {:induction false} NormalQueryMeaning(query: string, keep: Pair -> bool)
    ensures ParseQuery(NormalQuery(query, keep)) == Meaning(NormalQuery(query, keep), keep)
    ensures multiset(ParseQuery(NormalQuery(query, keep))) == multiset(Meaning(query, keep))
    ensures Sorted(ParseQuery(NormalQuery(query, keep)), PairLe)
  {
    var pairs := Sort(Meaning(query, keep), PairLe);
    ParseEncoded(pairs);
    PairLeOrder();
    SortSorts(Meaning(query, keep), PairLe);
    SameElements(pairs, Meaning(query, keep));
    FilterAll(pairs, keep);
  }

  lemma {:induction false} NormalQueryIdempotent(query: string, keep: Pair -> bool)
    ensures NormalQuery(NormalQuery(query, keep), keep) == NormalQuery(query, keep)
  {
    NormalQueryMeaning(query, keep);
    var pairs := Sort(Meaning(query, keep), PairLe);
    ParseEncoded(pairs);
    PairLeOrder();
    SortOfSorted(pairs, PairLe);
  }
}
