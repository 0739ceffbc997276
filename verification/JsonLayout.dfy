/**
  Building JSON lists from typed values, how many bytes they take, and values that print
  exactly as they are stored.
 */
module JsonLayout {
  import opened Text
  import opened Utf8
  import opened Json

  function MapJson<T>(xs: seq<T>, print1: T -> Json): (r: seq<Json>)
    ensures |r| == |xs|
    ensures forall i :: 0 <= i < |xs| ==> r[i] == print1(xs[i])
  {
    if xs == [] then [] else [print1(xs[0])] + MapJson(xs[1..], print1)
  }

  function Total<T>(xs: seq<T>, size: T -> nat): nat {
    if xs == [] then 0 else size(xs[0]) + Total(xs[1..], size)
  }

  function FieldIndex(entries: seq<Member>, key: string): (i: nat)
    ensures i <= |entries|
    ensures i < |entries| ==> entries[i].key == key
    ensures i == |entries| ==> forall j :: 0 <= j < |entries| ==> entries[j].key != key
  {
    if entries == [] then 0 else if entries[0].key == key then 0 else 1 + FieldIndex(entries[1..], key)
  }

  // ------------------------------------------------------------ encoded size

  function Size(v: Json): nat {
    |Encode(Render(v))|
  }

  lemma {:induction false} EncodeParts(a: string, b: string)
    ensures |Encode(a + b)| == |Encode(a)| + |Encode(b)|
  {
    EncodeConcat(a, b);
  }

  lemma {:induction false} OneByte(s: string)
    requires IsAscii(s)
    ensures |Encode(s)| == |s|
  {
    EncodeAscii(s);
  }

  lemma {:induction false} ArrSize(items: seq<Json>)
    ensures Size(Arr(items)) == 2 + |Encode(RenderItems(items))|
  {
    EncodeParts("[" + RenderItems(items), "]");
    EncodeParts("[", RenderItems(items));
    OneByte("[");
    OneByte("]");
  }

  lemma {:induction false} ItemsSize(items: seq<Json>)
    requires items != []
    ensures |Encode(RenderItems(items))| <= Size(items[0]) + 1 + |Encode(RenderItems(items[1..]))|
  {
    if |items| > 1 {
      EncodeParts(Render(items[0]) + ",", RenderItems(items[1..]));
      EncodeParts(Render(items[0]), ",");
      OneByte(",");
    }
  }

  /** If every part prints within `k` bytes per counted position, comma included, so does the list. */
  lemma {:induction false} EachSize<T>(xs: seq<T>, print1: T -> Json, size: T -> nat, k: nat)
    requires forall i :: 0 <= i < |xs| ==> Size(print1(xs[i])) + 1 <= k * size(xs[i])
    ensures |Encode(RenderItems(MapJson(xs, print1)))| <= k * Total(xs, size)
  {
    if xs != [] {
      var items := MapJson(xs, print1);
      assert items[1..] == MapJson(xs[1..], print1);
      EachSize(xs[1..], print1, size, k);
      ItemsSize(items);
      assert k * (size(xs[0]) + Total(xs[1..], size)) == k * size(xs[0]) + k * Total(xs[1..], size);
    }
  }

  lemma {:induction false} EscapeLength(s: string)
    ensures |Escape(s)| <= 6 * |s|
  {
    if s != [] {
      EscapeLength(s[1..]);
    }
  }

  lemma {:induction false} QuoteSize(s: string)
    ensures |Encode(Quote(s))| <= 24 * |s| + 8
  {
    EscapeLength(s);
  }

  lemma {:induction false} EscapeCharBytes(c: char)
    ensures |Encode(EscapeChar(c))| <= 6
  {
    var e := EscapeChar(c);
    if e != [c] {
      assert forall d :: 0 <= d < 16 ==> (HEX[d] as int) < 0x80;
      assert IsAscii(e);
      OneByte(e);
    } else {
      EncodeCons(e);
    }
  }

  lemma {:induction false} EscapeBytes(s: string)
    ensures |Encode(Escape(s))| <= 6 * |s|
  {
    if s != [] {
      EscapeCharBytes(s[0]);
      EscapeBytes(s[1..]);
      EncodeParts(EscapeChar(s[0]), Escape(s[1..]));
    }
  }

  /** A text takes at most six bytes per character, and its quotes. */
  lemma {:induction false} TextSize(s: string)
    ensures Size(Str(s)) <= 6 * |s| + 2
  {
    EscapeBytes(s);
    EncodeParts("\"" + Escape(s), "\"");
    EncodeParts("\"", Escape(s));
    OneByte("\"");
  }

  lemma {:induction false} TotalConst<T>(xs: seq<T>, size: T -> nat)
    requires forall i :: 0 <= i < |xs| ==> size(xs[i]) == 1
    ensures Total(xs, size) == |xs|
  {
    if xs != [] {
      TotalConst(xs[1..], size);
    }
  }

  lemma {:induction false} ListSize<T>(xs: seq<T>, print1: T -> Json, k: nat)
    requires forall i :: 0 <= i < |xs| ==> Size(print1(xs[i])) + 1 <= k
    ensures Size(Arr(MapJson(xs, print1))) <= k * |xs| + 2
  {
    var one := (x: T) => 1;
    TotalConst(xs, one);
    EachSize(xs, print1, one, k);
    ArrSize(MapJson(xs, print1));
  }

  lemma {:induction false} EntrySize(m: Member)
    ensures |Encode(RenderEntry(m))| <= 24 * |m.key| + 9 + Size(m.value)
  {
    EncodeParts(Quote(m.key) + ":", Render(m.value));
    EncodeParts(Quote(m.key), ":");
    OneByte(":");
    QuoteSize(m.key);
  }

  lemma {:induction false} PairText(a: Member, b: Member)
    ensures Render(Obj([a, b])) == "{" + (RenderEntry(a) + "," + RenderEntry(b)) + "}"
  {
    var es := [a, b];
    assert es[1..] == [b];
    assert RenderEntries(es[1..]) == RenderEntry(b);
  }

  lemma {:induction false} PairSize(a: Member, b: Member)
    ensures Size(Obj([a, b])) <= 24 * (|a.key| + |b.key|) + 21 + Size(a.value) + Size(b.value)
  {
    PairText(a, b);
    var body := RenderEntry(a) + "," + RenderEntry(b);
    EntrySize(a);
    EntrySize(b);
    EncodeParts(RenderEntry(a) + ",", RenderEntry(b));
    EncodeParts(RenderEntry(a), ",");
    EncodeParts("{" + body, "}");
    EncodeParts("{", body);
    OneByte(",");
    OneByte("{");
    OneByte("}");
  }

  // ------------------------------------------------------------ plain values

  /** A value that prints as it is stored and reads back as itself. */
  predicate Plain(v: Json) {
    WellFormed(v) && Canon(v) == v
  }

  lemma {:induction false} PlainArr(items: seq<Json>)
    requires forall i :: 0 <= i < |items| ==> Plain(items[i])
    ensures Plain(Arr(items))
  {
    assert CanonItems(items) == items;
  }

  lemma {:induction false} PlainMap<T>(xs: seq<T>, print1: T -> Json)
    requires forall i :: 0 <= i < |xs| ==> Plain(print1(xs[i]))
    ensures Plain(Arr(MapJson(xs, print1)))
  {
    PlainArr(MapJson(xs, print1));
  }

  lemma {:induction false} PlainPair(a: Member, b: Member)
    requires Plain(a.value) && Plain(b.value) && a.key != b.key && KeyLe(a, b)
    ensures Plain(Obj([a, b]))
  {
    var es := [a, b];
    assert CanonEntry(a) == a && CanonEntry(b) == b;
    assert CanonEntries(es) == es;
    assert es[1..] == [b] && [b][1..] == [];
    assert Sort([b], KeyLe) == [b];
    assert Sort(es, KeyLe) == Insert(a, Sort([b], KeyLe), KeyLe) == es;
  }
}
