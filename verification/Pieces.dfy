/**
  Cutting text at delimiters and joining it again: `str.split`, `str.partition`,
  `str.join` and the delimiter searches of `urllib.parse`.
 */
module Pieces {

  function Is(c: char): char -> bool {
    (x: char) => x == c
  }

  /** Every character satisfies `ok`. */
  predicate All(s: string, ok: char -> bool) {
    forall i :: 0 <= i < |s| ==> ok(s[i])
  }

  predicate Free(s: string, stop: char -> bool) {
    forall i :: 0 <= i < |s| ==> !stop(s[i])
  }

  /** The longest prefix in which no character is a stop. */
  function Upto(s: string, stop: char -> bool): (r: string)
    ensures r <= s && Free(r, stop)
    ensures |r| < |s| ==> stop(s[|r|])
  {
    if s == [] || stop(s[0]) then [] else [s[0]] + Upto(s[1..], stop)
  }

  lemma {:induction false} UptoStop(p: string, stop: char -> bool, rest: string)
    requires Free(p, stop)
    requires rest == [] || stop(rest[0])
    ensures Upto(p + rest, stop) == p
  {
    if p == [] {
      assert p + rest == rest;
    } else {
      assert (p + rest)[1..] == p[1..] + rest;
      UptoStop(p[1..], stop, rest);
    }
  }

  lemma {:induction false} UptoFree(p: string, stop: char -> bool)
    requires Free(p, stop)
    ensures Upto(p, stop) == p
  {
    UptoStop(p, stop, []);
    assert p + [] == p;
  }

  /** What follows the first stop character, or nothing when there is none. */
  function After(s: string, stop: char -> bool): (r: string)
    ensures |r| <= |s|
    ensures |Upto(s, stop)| < |s| ==> |r| == |s| - |Upto(s, stop)| - 1
    ensures s != [] ==> |r| < |s|
  {
    var n := |Upto(s, stop)|;
    if n < |s| then s[n + 1..] else []
  }

  lemma {:induction false} AfterStop(p: string, c: char, rest: string)
    requires Free(p, Is(c))
    ensures Upto(p + [c] + rest, Is(c)) == p
    ensures After(p + [c] + rest, Is(c)) == rest
  {
    var s := p + [c] + rest;
    assert s == p + ([c] + rest);
    UptoStop(p, Is(c), [c] + rest);
    assert s[|p| + 1..] == rest;
  }

  /** `s.split(c)`. */
  function Split(s: string, c: char): (r: seq<string>)
    ensures r != []
    ensures forall i :: 0 <= i < |r| ==> Free(r[i], Is(c))
    decreases |s|
  {
    var head := Upto(s, Is(c));
    if |head| == |s| then [s] else [head] + Split(After(s, Is(c)), c)
  }

  /** `c.join(parts)`. */
  function Join(parts: seq<string>, c: char): string {
    if parts == [] then []
    else if |parts| == 1 then parts[0]
    else parts[0] + [c] + Join(parts[1..], c)
  }

  lemma {:induction false} SplitJoin(parts: seq<string>, c: char)
    requires parts != []
    requires forall i :: 0 <= i < |parts| ==> Free(parts[i], Is(c))
    ensures Split(Join(parts, c), c) == parts
  {
    if |parts| == 1 {
      UptoFree(parts[0], Is(c));
    } else {
      AfterStop(parts[0], c, Join(parts[1..], c));
      SplitJoin(parts[1..], c);
      assert parts == [parts[0]] + parts[1..];
    }
  }

  lemma {:induction false} SplitChars(s: string, c: char, ok: char -> bool)
    requires All(s, ok)
    ensures forall i :: 0 <= i < |Split(s, c)| ==> All(Split(s, c)[i], ok)
    decreases |s|
  {
    var head := Upto(s, Is(c));
    if |head| < |s| {
      var rest := After(s, Is(c));
      forall i | 0 <= i < |rest| ensures ok(rest[i]) {
        assert rest[i] == s[|head| + 1 + i];
      }
      SplitChars(rest, c, ok);
    }
  }

  lemma {:induction false} JoinChars(parts: seq<string>, c: char, ok: char -> bool)
    requires ok(c)
    requires forall i :: 0 <= i < |parts| ==> All(parts[i], ok)
    ensures All(Join(parts, c), ok)
  {
    if |parts| > 1 {
      JoinChars(parts[1..], c, ok);
    }
  }

  lemma {:induction false} AllConcat(a: string, b: string, ok: char -> bool)
    requires All(a, ok) && All(b, ok)
    ensures All(a + b, ok)
  {
  }

  /** Splitting a concatenation whose seam is a separator. */
  lemma {:induction false} SplitConcat(a: string, c: char, b: string)
    ensures Split(a + [c] + b, c) == Split(a, c) + Split(b, c)
    decreases |a|
  {
    var head := Upto(a, Is(c));
    if |head| == |a| {
      AfterStop(a, c, b);
    } else {
      var rest := After(a, Is(c));
      assert a == head + [c] + rest;
      assert a + [c] + b == head + [c] + (rest + [c] + b);
      AfterStop(head, c, rest + [c] + b);
      SplitConcat(rest, c, b);
    }
  }

  // ---------------------------------------------------- case and substrings

  function LowerChar(c: char): char {
    if 'A' <= c <= 'Z' then (c as int + 32) as char else c
  }

  /** `str.lower` on ASCII text. */
  function LowerAscii(s: string): (r: string)
    ensures |r| == |s| && forall i :: 0 <= i < |s| ==> r[i] == LowerChar(s[i])
  {
    if s == [] then [] else [LowerChar(s[0])] + LowerAscii(s[1..])
  }

  /** `token in text`. */
  predicate Contains(text: string, token: string) {
    token <= text || (text != [] && Contains(text[1..], token))
  }

  lemma {:induction false} ContainsChar(text: string, token: string, c: char)
    requires Contains(text, token) && c in token
    ensures c in text
  {
    if !(token <= text) {
      ContainsChar(text[1..], token, c);
    }
  }
}
