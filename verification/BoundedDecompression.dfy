/**
  Decoding an HTTP body within a byte limit
  (connectors/official_http/src/official_http/scrapy_child.py).

  The zlib object is any decoder that honours an output cap; what it decodes to is given by a
  meaning function over its state and the input still to come.
 */
module BoundedDecompression {
  import opened Text
  import opened Utf8
  import opened Pieces

  /** What `decompress` does: output, the unconsumed tail and the next state, or zlib.error. */
  datatype Feed<+S> = Fed(chunk: seq<Byte>, tail: seq<Byte>, next: S) | FeedError

  datatype Flush<+S> = Flushed(chunk: seq<Byte>, next: S) | FlushError

  /** `zlib.decompressobj(wbits)`. */
  datatype Decoder<!S> = Decoder(
    start: S,
    decompress: (S, seq<Byte>, nat) -> Feed<S>,
    flush: (S, nat) -> Flush<S>,
    eof: S -> bool)

  /** What an input stands for: a complete stream, one that breaks off, or no stream at all.
      Bytes behind a complete stream do not matter to it. */
  datatype Outcome = Whole(bytes: seq<Byte>) | Truncated | Corrupt

  function Prepend(bytes: seq<Byte>, o: Outcome): Outcome {
    if o.Whole? then Whole(bytes + o.bytes) else o
  }

  /** One call of `decompress` with a positive cap: at most `cap` bytes come out, nothing of the
      stream is lost, and an unconsumed tail comes with progress. */
  predicate FeedHonours<S(!new)>(d: Decoder<S>, meaning: (S, seq<Byte>) -> Outcome, s: S, input: seq<Byte>, cap: nat) {
    match d.decompress(s, input, cap)
    case FeedError => meaning(s, input).Corrupt?
    case Fed(chunk, tail, next) =>
      && |chunk| <= cap
      && meaning(s, input) == Prepend(chunk, meaning(next, tail))
      && (tail != [] ==> |chunk| > 0 || |tail| < |input|)
  }

  /** `flush` returns whatever is left, however large; `eof` tells whether the stream is complete. */
  predicate FlushHonours<S(!new)>(d: Decoder<S>, meaning: (S, seq<Byte>) -> Outcome, s: S, size: nat) {
    match d.flush(s, size)
    case FlushError => meaning(s, []).Corrupt?
    case Flushed(chunk, next) =>
      if d.eof(next) then meaning(s, []) == Whole(chunk) else !meaning(s, []).Whole?
  }

  ghost predicate Honours<S(!new)>(d: Decoder<S>, meaning: (S, seq<Byte>) -> Outcome) {
    && (forall s: S, input: seq<Byte>, cap: nat :: input != [] && cap >= 1 ==> FeedHonours(d, meaning, s, input, cap))
    && (forall s: S, size: nat :: size >= 1 ==> FlushHonours(d, meaning, s, size))
  }

  datatype BodyError = TooLarge | Invalid | EncodingUnsupported

  /** The verdict on a decoded stream under a limit. */
  ghost predicate Verdict(o: Outcome, maximum: nat, r: Result<seq<Byte>, BodyError>) {
    match r
    case Ok(bytes) => o == Whole(bytes) && |bytes| <= maximum
    case Err(TooLarge) => o.Whole? ==> |o.bytes| > maximum
    case Err(Invalid) => !o.Whole?
    case Err(EncodingUnsupported) => false
  }

  lemma {:induction false} FeedFacts<S(!new)>(
    d: Decoder<S>, meaning: (S, seq<Byte>) -> Outcome, s: S, input: seq<Byte>, cap: nat)
    requires Honours(d, meaning) && input != [] && cap >= 1
    ensures FeedHonours(d, meaning, s, input, cap)
  {
  }

  lemma {:induction false} FlushFacts<S(!new)>(d: Decoder<S>, meaning: (S, seq<Byte>) -> Outcome, s: S, size: nat)
    requires Honours(d, meaning) && size >= 1
    ensures FlushHonours(d, meaning, s, size)
  {
  }

  lemma {:induction false} PrependTwice(a: seq<Byte>, b: seq<Byte>, o: Outcome)
    ensures Prepend(a, Prepend(b, o)) == Prepend(a + b, o)
  {
    if o.Whole? {
      assert a + (b + o.bytes) == a + b + o.bytes;
    }
  }

  /** `_bounded_zlib_decompress`.  `asked` lists the caps it passed to the decoder. */
  method Decompress<S(!new)>(d: Decoder<S>, ghost meaning: (S, seq<Byte>) -> Outcome, encoded: seq<Byte>, maximum: nat)
    returns (r: Result<seq<Byte>, BodyError>, asked: seq<nat>)
    requires Honours(d, meaning)
    ensures Verdict(meaning(d.start, encoded), maximum, r)
    ensures r.Ok? <==> meaning(d.start, encoded).Whole? && |meaning(d.start, encoded).bytes| <= maximum
    ensures meaning(d.start, encoded).Whole? && |meaning(d.start, encoded).bytes| > maximum ==> r == Err(TooLarge)
    ensures forall i :: 0 <= i < |asked| ==> 1 <= asked[i] <= maximum + 1
  {
    var state := d.start;
    var output: seq<Byte> := [];
    var pending := encoded;
    asked := [];
    PrependNothing(meaning(state, pending));
    while pending != []
      invariant |output| <= maximum
      invariant meaning(d.start, encoded) == Prepend(output, meaning(state, pending))
      invariant forall i :: 0 <= i < |asked| ==> 1 <= asked[i] <= maximum + 1
      decreases maximum - |output|, |pending|
    {
      var remaining := maximum - |output|;
      FeedFacts(d, meaning, state, pending, remaining + 1);
      asked := asked + [remaining + 1];
      var fed := d.decompress(state, pending, remaining + 1);
      if fed.FeedError? {
        return Err(Invalid), asked;
      }
      PrependTwice(output, fed.chunk, meaning(fed.next, fed.tail));
      output := output + fed.chunk;
      if |output| > maximum {
        return Err(TooLarge), asked;
      }
      state := fed.next;
      pending := fed.tail;
    }
    var remaining := maximum - |output|;
    FlushFacts(d, meaning, state, remaining + 1);
    asked := asked + [remaining + 1];
    var flushed := d.flush(state, remaining + 1);
    if flushed.FlushError? {
      return Err(Invalid), asked;
    }
    output := output + flushed.chunk;
    state := flushed.next;
    if d.eof(state) && |output| <= maximum {
      r := Ok(output);
    } else if |output| > maximum {
      r := Err(TooLarge);
    } else {
      r := Err(Invalid);
    }
  }

  lemma {:induction false} PrependNothing(o: Outcome)
    ensures Prepend([], o) == o
  {
    if o.Whole? {
      assert [] + o.bytes == o.bytes;
    }
  }

  // ----------------------------------------------------------- content coding

  /** The outcome a content coding promises for a body. */
  ghost function BodyOutcome<S(!new)>(encoding: string, gzip: Decoder<S>, deflate: Decoder<S>,
                                      meaning: (S, seq<Byte>) -> Outcome, encoded: seq<Byte>): Outcome {
    if encoding == "" || encoding == "identity" then Whole(encoded)
    else if encoding == "gzip" then meaning(gzip.start, encoded)
    else meaning(deflate.start, encoded)
  }

  /** What `str.strip` removes. */
  predicate IsSpace(c: char) {
    var u := c as int;
    || 0x09 <= u <= 0x0D || 0x1C <= u <= 0x20 || u == 0x85 || u == 0xA0 || u == 0x1680
    || 0x2000 <= u <= 0x200A || u == 0x2028 || u == 0x2029 || u == 0x202F || u == 0x205F || u == 0x3000
  }

  function StripLeft(s: string): string {
    if s != [] && IsSpace(s[0]) then StripLeft(s[1..]) else s
  }

  function StripRight(s: string): string {
    if s != [] && IsSpace(s[|s| - 1]) then StripRight(s[..|s| - 1]) else s
  }

  /** The first coding named in a Content-Encoding header: `fold` is `str.casefold` on wide text. */
  function Coding(header: Option<string>, fold: string -> string): string {
    var text := if header.None? || header.value == "" then "identity" else header.value;
    var name := StripRight(StripLeft(Upto(text, Is(','))));
    if IsAscii(name) then LowerAscii(name) else fold(name)
  }

  /** The 29 characters of white space. */
  lemma {:induction false} SpaceTable(c: char)
    ensures IsSpace(c) <==> c as int in {
      0x09, 0x0A, 0x0B, 0x0C, 0x0D, 0x1C, 0x1D, 0x1E, 0x1F, 0x20, 0x85, 0xA0, 0x1680,
      0x2000, 0x2001, 0x2002, 0x2003, 0x2004, 0x2005, 0x2006, 0x2007, 0x2008, 0x2009, 0x200A,
      0x2028, 0x2029, 0x202F, 0x205F, 0x3000}
  {
  }

  /** No header, or an empty one, is the identity. */
  lemma {:induction false} NoCoding(fold: string -> string)
    ensures Coding(None, fold) == Coding(Some(""), fold) == "identity"
  {
    var text := "identity";
    assert text[0] == 'i' && text[7] == 'y' && |text| == 8;
    assert forall i :: 0 <= i < 8 ==> 'a' <= text[i] <= 'z';
    OneName(text, None, fold);
    OneName(text, Some(""), fold);
  }

  lemma {:induction false} OneName(text: string, header: Option<string>, fold: string -> string)
    requires text == "identity" && (header == None || header == Some(""))
    requires text != "" && forall i :: 0 <= i < |text| ==> 'a' <= text[i] <= 'z'
    ensures Coding(header, fold) == text
  {
    UptoFree(text, Is(','));
    assert LowerAscii(text) == text;
  }

  lemma {:induction false} StripLeftSpaces(a: string, s: string)
    requires All(a, IsSpace) && s != [] && !IsSpace(s[0])
    ensures StripLeft(a + s) == s
  {
    if a == [] {
      assert a + s == s;
    } else {
      assert (a + s)[1..] == a[1..] + s;
      StripLeftSpaces(a[1..], s);
    }
  }

  lemma {:induction false} StripRightSpaces(s: string, b: string)
    requires All(b, IsSpace) && s != [] && !IsSpace(s[|s| - 1])
    ensures StripRight(s + b) == s
  {
    if b == [] {
      assert s + b == s;
    } else {
      assert (s + b)[..|s + b| - 1] == s + b[..|b| - 1];
      StripRightSpaces(s, b[..|b| - 1]);
    }
  }

  /** White space around the name, its case and any further codings do not matter. */
  lemma {:induction false} CodingIsFirstName(a: string, name: string, b: string, rest: string, fold: string -> string)
    requires All(a, IsSpace) && All(b, IsSpace) && (rest == "" || rest[0] == ',')
    requires name != "" && IsAscii(name) && Free(name, Is(',')) && !IsSpace(name[0]) && !IsSpace(name[|name| - 1])
    ensures Coding(Some(a + name + b + rest), fold) == LowerAscii(name)
  {
    var first := a + name + b;
    forall i | 0 <= i < |first| ensures !Is(',')(first[i]) {
      if i < |a| {
        assert IsSpace(a[i]);
      } else if i < |a| + |name| {
        assert first[i] == name[i - |a|] && !Is(',')(name[i - |a|]);
      } else {
        assert first[i] == b[i - |a| - |name|] && IsSpace(b[i - |a| - |name|]);
      }
    }
    UptoStop(first, Is(','), rest);
    assert first == a + (name + b);
    StripLeftSpaces(a, name + b);
    StripRightSpaces(name, b);
  }

  /** `_decode_body`. */
  method DecodeBody<S(!new)>(
    header: Option<string>, fold: string -> string, gzip: Decoder<S>, deflate: Decoder<S>,
    ghost meaning: (S, seq<Byte>) -> Outcome, encoded: seq<Byte>, maximum: nat)
    returns (r: Result<seq<Byte>, BodyError>)
    requires Honours(gzip, meaning) && Honours(deflate, meaning)
    ensures r == Err(EncodingUnsupported) <==> Coding(header, fold) !in {"", "identity", "gzip", "deflate"}
    ensures r != Err(EncodingUnsupported) ==>
      Verdict(BodyOutcome(Coding(header, fold), gzip, deflate, meaning, encoded), maximum, r)
    ensures header == None ==> r == if |encoded| <= maximum then Ok(encoded) else Err(TooLarge)
  {
    NoCoding(fold);
    var encoding := Coding(header, fold);
    var decoded: seq<Byte>;
    if encoding in {"", "identity"} {
      decoded := encoded;
    } else if encoding == "gzip" {
      var unpacked, _ := Decompress(gzip, meaning, encoded, maximum);
      if unpacked.Err? {
        return unpacked;
      }
      decoded := unpacked.value;
    } else if encoding == "deflate" {
      var unpacked, _ := Decompress(deflate, meaning, encoded, maximum);
      if unpacked.Err? {
        return unpacked;
      }
      decoded := unpacked.value;
    } else {
      return Err(EncodingUnsupported);
    }
    if |decoded| > maximum {
      return Err(TooLarge);
    }
    r := Ok(decoded);
  }

  // ------------------------------------------------- such decoders exist

  /** Zero-terminated text as a compressed format: the bytes before the first zero. */
  function Terminated(done: bool, input: seq<Byte>): Outcome
    decreases |input|
  {
    if done then Whole([])
    else if input == [] then Truncated
    else if input[0] == 0 then Whole([])
    else Prepend([input[0]], Terminated(false, input[1..]))
  }

  function FeedTerminated(done: bool, input: seq<Byte>, cap: nat): (f: Feed<bool>)
    ensures f.Fed? && |f.chunk| <= cap && |f.tail| <= |input|
    ensures cap > 0 && input != [] ==> |f.tail| < |input|
    decreases |input|
  {
    if done || input == [] then Fed([], [], done)
    else if input[0] == 0 then Fed([], [], true)
    else if cap == 0 then Fed([], input, false)
    else
      var rest := FeedTerminated(false, input[1..], cap - 1);
      Fed([input[0]] + rest.chunk, rest.tail, rest.next)
  }

  function FlushTerminated(done: bool, size: nat): Flush<bool> {
    Flushed([], done)
  }

  function TerminatedDecoder(): Decoder<bool> {
    Decoder(false, FeedTerminated, FlushTerminated, (done: bool) => done)
  }

  lemma {:induction false} NothingLost(done: bool, input: seq<Byte>, cap: nat)
    ensures var f := FeedTerminated(done, input, cap);
      Terminated(done, input) == Prepend(f.chunk, Terminated(f.next, f.tail))
    decreases |input|
  {
    if done || input == [] || input[0] == 0 || cap == 0 {
      FeedEnds(done, input, cap);
    } else {
      NothingLost(false, input[1..], cap - 1);
      FeedOne(input, cap, FeedTerminated(false, input[1..], cap - 1));
    }
  }

  lemma {:induction false} FeedOne(input: seq<Byte>, cap: nat, rest: Feed<bool>)
    requires input != [] && input[0] != 0 && cap > 0 && rest == FeedTerminated(false, input[1..], cap - 1)
    requires Terminated(false, input[1..]) == Prepend(rest.chunk, Terminated(rest.next, rest.tail))
    ensures var f := FeedTerminated(false, input, cap);
      Terminated(false, input) == Prepend(f.chunk, Terminated(f.next, f.tail))
  {
    FeedUnfold(input, cap);
    PrependTwice([input[0]], rest.chunk, Terminated(rest.next, rest.tail));
  }

  lemma {:induction false} FeedEnds(done: bool, input: seq<Byte>, cap: nat)
    requires done || input == [] || input[0] == 0 || cap == 0
    ensures var f := FeedTerminated(done, input, cap);
      Terminated(done, input) == Prepend(f.chunk, Terminated(f.next, f.tail))
  {
    var f := FeedTerminated(done, input, cap);
    assert Terminated(done, input) == Terminated(f.next, f.tail);
    PrependNothing(Terminated(f.next, f.tail));
  }

  lemma {:induction false} FeedUnfold(input: seq<Byte>, cap: nat)
    requires input != [] && input[0] != 0 && cap > 0
    ensures Terminated(false, input) == Prepend([input[0]], Terminated(false, input[1..]))
    ensures var rest := FeedTerminated(false, input[1..], cap - 1);
      FeedTerminated(false, input, cap) == Fed([input[0]] + rest.chunk, rest.tail, rest.next)
  {
  }

  /** The assumption on decoders can be met, trailing bytes included. */
  lemma {:induction false} TerminatedDecoderHonours()
    ensures Honours(TerminatedDecoder(), Terminated)
  {
    var d := TerminatedDecoder();
    forall s: bool, input: seq<Byte>, cap: nat | input != [] && cap >= 1
      ensures FeedHonours(d, Terminated, s, input, cap)
    {
      NothingLost(s, input, cap);
    }
    forall s: bool, size: nat | size >= 1 ensures FlushHonours(d, Terminated, s, size) {
    }
  }
}
