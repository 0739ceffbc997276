/**
  The identity claim behind sorted-key JSON: two values print to the same bytes exactly
  when they are the same value, whatever order their dictionaries were filled in.
 */
module CanonicalJson {
  import opened Text
  import opened Utf8
  import opened Json

  /** Equality of JSON values as data: members are compared by key, not by position. */
  ghost predicate Same(a: Json, b: Json)
    decreases a
  {
    match (a, b)
    case (Arr(xs), Arr(ys)) => |xs| == |ys| && forall i :: 0 <= i < |xs| ==> Same(xs[i], ys[i])
    case (Obj(xs), Obj(ys)) =>
      && (forall i :: 0 <= i < |xs| ==> HasSame(xs[i], ys))
      && (forall j :: 0 <= j < |ys| ==> HasKey(ys[j].key, xs))
    case _ => a == b
  }

  /** A dictionary in which `name` is bound to `value`. */
  ghost predicate Binds(v: Json, name: string, value: Json) {
    v.Obj? && UniqueKeys(v.entries) && Member(name, value) in v.entries
  }

  ghost predicate HasSame(e: Member, entries: seq<Member>)
    decreases e
  {
    exists j :: 0 <= j < |entries| && e.key == entries[j].key && Same(e.value, entries[j].value)
  }

  ghost predicate HasKey(key: string, entries: seq<Member>) {
    exists i :: 0 <= i < |entries| && entries[i].key == key
  }

  /** `canonical_json_bytes` (also every other canonical writer of the repository). */
  function CanonicalBytes(v: Json): seq<Byte> {
    Encode(Dumps(v))
  }

  // --------------------------------------------- canonical values stay legal

  lemma {:induction false} InsertUnique(e: Member, xs: seq<Member>)
    requires UniqueKeys(xs) && forall i :: 0 <= i < |xs| ==> xs[i].key != e.key
    ensures UniqueKeys(Insert(e, xs, KeyLe))
  {
    if xs != [] && !KeyLe(e, xs[0]) {
      InsertUnique(e, xs[1..]);
      var rest := Insert(e, xs[1..], KeyLe);
      forall i | 0 <= i < |rest| ensures rest[i].key != xs[0].key {
        assert rest[i] in multiset(rest);
        assert rest[i] == e || rest[i] in xs[1..];
      }
    }
  }

  lemma {:induction false} SortUnique(xs: seq<Member>)
    requires UniqueKeys(xs)
    ensures UniqueKeys(Sort(xs, KeyLe))
  {
    if xs != [] {
      SortUnique(xs[1..]);
      var rest := Sort(xs[1..], KeyLe);
      SameElements(rest, xs[1..]);
      forall i | 0 <= i < |rest| ensures rest[i].key != xs[0].key {
        assert rest[i] in xs[1..];
      }
      InsertUnique(xs[0], rest);
    }
  }

  lemma {:induction false} KeyLeOrder()
    ensures TotalPreorder(KeyLe)
  {
    StrLeTotalOrder();
    forall x: Member, y: Member ensures KeyLe(x, y) || KeyLe(y, x) {
      assert StrLe(x.key, y.key) || StrLe(y.key, x.key);
    }
    forall x: Member, y: Member, z: Member | KeyLe(x, y) && KeyLe(y, z) ensures KeyLe(x, z) {
      assert StrLe(x.key, y.key) && StrLe(y.key, z.key);
    }
  }

  lemma {:induction false} UniqueTies(xs: seq<Member>)
    requires UniqueKeys(xs)
    ensures TiesEqual(xs, KeyLe)
  {
    StrLeTotalOrder();
    forall x, y | x in xs && y in xs && KeyLe(x, y) && KeyLe(y, x) ensures x == y {
      assert StrLe(x.key, y.key) && StrLe(y.key, x.key);
    }
  }

  lemma {:induction false} CanonWellFormed(v: Json)
    requires WellFormed(v)
    ensures WellFormed(Canon(v))
    decreases v
  {
    match v
    case Arr(items) =>
      forall i | 0 <= i < |items| ensures WellFormed(CanonItems(items)[i]) {
        CanonWellFormed(items[i]);
      }
    case Obj(entries) =>
      var es := CanonEntries(entries);
      forall i | 0 <= i < |entries| ensures WellFormed(es[i].value) {
        CanonWellFormed(entries[i].value);
      }
      SortUnique(es);
      SameElements(es, Sort(es, KeyLe));
      var sorted := Sort(es, KeyLe);
      forall i | 0 <= i < |sorted| ensures WellFormed(sorted[i].value) {
        assert sorted[i] in es;
      }
    case _ =>
  }

  // ----------------------------------- equal canonical form is equal as data

  lemma {:induction false} UniqueMember(xs: seq<Member>, x: Member)
    requires UniqueKeys(xs)
    ensures multiset(xs)[x] == if x in xs then 1 else 0
    decreases |xs|
  {
    if xs != [] {
      assert xs == [xs[0]] + xs[1..];
      UniqueMember(xs[1..], x);
    }
  }

  lemma {:induction false} SameMultiset(xs: seq<Member>, ys: seq<Member>)
    requires UniqueKeys(xs) && UniqueKeys(ys)
    requires forall x :: x in xs <==> x in ys
    ensures multiset(xs) == multiset(ys)
  {
    forall x ensures multiset(xs)[x] == multiset(ys)[x] {
      UniqueMember(xs, x);
      UniqueMember(ys, x);
    }
  }

  lemma {:induction false} SameImpliesCanon(a: Json, b: Json)
    requires WellFormed(a) && WellFormed(b) && Same(a, b)
    ensures Canon(a) == Canon(b)
    decreases a, 1
  {
    match (a, b)
    case (Arr(xs), Arr(ys)) =>
      forall i | 0 <= i < |xs| ensures CanonItems(xs)[i] == CanonItems(ys)[i] {
        SameImpliesCanon(xs[i], ys[i]);
      }
      assert CanonItems(xs) == CanonItems(ys);
    case (Obj(xs), Obj(ys)) =>
      forall i | 0 <= i < |xs| ensures CanonEntry(xs[i]) in CanonEntries(ys) {
        SameMemberCanon(xs[i], ys);
      }
      SameKeysSort(xs, ys);
    case _ =>
  }

  lemma {:induction false} SameMemberCanon(e: Member, ys: seq<Member>)
    requires WellFormed(e.value) && HasSame(e, ys)
    requires forall j :: 0 <= j < |ys| ==> WellFormed(ys[j].value)
    ensures CanonEntry(e) in CanonEntries(ys)
    decreases e, 2
  {
    var j :| 0 <= j < |ys| && e.key == ys[j].key && Same(e.value, ys[j].value);
    SameImpliesCanon(e.value, ys[j].value);
    assert CanonEntries(ys)[j] == CanonEntry(ys[j]);
  }

  lemma {:induction false} SubsetBySameKeys(cx: seq<Member>, cy: seq<Member>)
    requires UniqueKeys(cy) && forall i :: 0 <= i < |cx| ==> cx[i] in cy
    requires forall j :: 0 <= j < |cy| ==> HasKey(cy[j].key, cx)
    ensures forall x :: x in cx <==> x in cy
  {
    forall j | 0 <= j < |cy| ensures cy[j] in cx {
      var i :| 0 <= i < |cx| && cx[i].key == cy[j].key;
      assert cx[i] in cy;
    }
  }

  lemma {:induction false} SortSameMembers(cx: seq<Member>, cy: seq<Member>)
    requires UniqueKeys(cx) && UniqueKeys(cy) && forall x :: x in cx <==> x in cy
    ensures Sort(cx, KeyLe) == Sort(cy, KeyLe)
  {
    SameMultiset(cx, cy);
    KeyLeOrder();
    UniqueTies(cx);
    SortPermutation(cx, cy, KeyLe);
  }

  lemma {:induction false} CanonKeys(xs: seq<Member>)
    requires UniqueKeys(xs)
    ensures UniqueKeys(CanonEntries(xs))
  {
    var cx := CanonEntries(xs);
    forall i, j | 0 <= i < j < |cx| ensures cx[i].key != cx[j].key {
      assert cx[i].key == xs[i].key && cx[j].key == xs[j].key;
    }
  }

  lemma {:induction false} KeysCarry(xs: seq<Member>, ys: seq<Member>, cx: seq<Member>, cy: seq<Member>)
    requires |cx| == |xs| && |cy| == |ys|
    requires forall i :: 0 <= i < |xs| ==> cx[i].key == xs[i].key
    requires forall j :: 0 <= j < |ys| ==> cy[j].key == ys[j].key && HasKey(ys[j].key, xs)
    ensures forall j :: 0 <= j < |cy| ==> HasKey(cy[j].key, cx)
  {
    forall j | 0 <= j < |cy| ensures HasKey(cy[j].key, cx) {
      var i :| 0 <= i < |xs| && xs[i].key == ys[j].key;
      assert cx[i].key == cy[j].key;
    }
  }

  lemma {:induction false} SameKeysSort(xs: seq<Member>, ys: seq<Member>)
    requires UniqueKeys(xs) && UniqueKeys(ys)
    requires forall i :: 0 <= i < |xs| ==> CanonEntry(xs[i]) in CanonEntries(ys)
    requires forall j :: 0 <= j < |ys| ==> HasKey(ys[j].key, xs)
    ensures Sort(CanonEntries(xs), KeyLe) == Sort(CanonEntries(ys), KeyLe)
  {
    var cx, cy := CanonEntries(xs), CanonEntries(ys);
    CanonKeys(xs);
    CanonKeys(ys);
    KeysCarry(xs, ys, cx, cy);
    SubsetBySameKeys(cx, cy);
    SortSameMembers(cx, cy);
  }

  lemma {:induction false} CanonImpliesSame(a: Json, b: Json)
    requires Canon(a) == Canon(b)
    ensures Same(a, b)
    decreases a, 1
  {
    match (a, b)
    case (Arr(xs), Arr(ys)) =>
      forall i | 0 <= i < |xs| ensures Same(xs[i], ys[i]) {
        assert CanonItems(xs)[i] == CanonItems(ys)[i];
        CanonImpliesSame(xs[i], ys[i]);
      }
    case (Obj(xs), Obj(ys)) =>
      var cx, cy := CanonEntries(xs), CanonEntries(ys);
      assert multiset(cx) == multiset(Sort(cx, KeyLe));
      SameElements(cx, cy);
      forall i | 0 <= i < |xs| ensures HasSame(xs[i], ys) {
        assert cx[i] in cy;
        CanonMemberSame(xs[i], ys);
      }
      CanonKeysFound(xs, ys);
    case _ =>
  }

  lemma {:induction false} CanonKeysFound(xs: seq<Member>, ys: seq<Member>)
    requires forall e :: e in CanonEntries(ys) ==> e in CanonEntries(xs)
    ensures forall j :: 0 <= j < |ys| ==> HasKey(ys[j].key, xs)
  {
    var cx, cy := CanonEntries(xs), CanonEntries(ys);
    forall j | 0 <= j < |ys| ensures HasKey(ys[j].key, xs) {
      assert cy[j] in cx;
      var i :| 0 <= i < |cx| && cx[i] == cy[j];
      assert xs[i].key == ys[j].key;
    }
  }

  lemma {:induction false} CanonMemberSame(e: Member, ys: seq<Member>)
    requires CanonEntry(e) in CanonEntries(ys)
    ensures HasSame(e, ys)
    decreases e, 2
  {
    var j :| 0 <= j < |ys| && CanonEntries(ys)[j] == CanonEntry(e);
    CanonImpliesSame(e.value, ys[j].value);
    assert e.key == ys[j].key;
  }

  /** Canonical bytes identify a value: equal bytes exactly for equal data. */
  lemma {:induction false} CanonicalBytesIdentify(a: Json, b: Json)
    requires WellFormed(a) && WellFormed(b)
    ensures CanonicalBytes(a) == CanonicalBytes(b) <==> Same(a, b)
  {
    if CanonicalBytes(a) == CanonicalBytes(b) {
      EncodeInjective(Dumps(a), Dumps(b));
      CanonWellFormed(a);
      CanonWellFormed(b);
      RenderInjective(Canon(a), Canon(b));
      CanonImpliesSame(a, b);
    }
    if Same(a, b) {
      SameImpliesCanon(a, b);
    }
  }

  /** `json.loads` of the canonical bytes gives the value back, members in key order. */
  lemma {:induction false} CanonicalBytesDecode(v: Json)
    requires WellFormed(v)
    ensures Decode(CanonicalBytes(v)) == Some(Dumps(v))
    ensures Loads(Dumps(v)) == Ok(Canon(v))
    ensures Same(Canon(v), v)
    ensures CanonicalBytes(Canon(v)) == CanonicalBytes(v)
  {
    RoundTrip(Dumps(v));
    CanonWellFormed(v);
    LoadsRender(Canon(v));
    CanonIdempotent(v);
    CanonImpliesSame(Canon(v), v);
  }

  lemma {:induction false} CanonIdempotent(v: Json)
    requires WellFormed(v)
    ensures Canon(Canon(v)) == Canon(v)
    decreases v
  {
    match v
    case Arr(items) =>
      var once := CanonItems(items);
      forall i | 0 <= i < |items| ensures CanonItems(once)[i] == once[i] {
        CanonIdempotent(items[i]);
      }
      assert CanonItems(once) == once;
    case Obj(entries) =>
      var es := CanonEntries(entries);
      forall i | 0 <= i < |es| ensures CanonEntry(es[i]) == es[i] {
        CanonIdempotent(entries[i].value);
      }
      CanonKeys(entries);
      SortedStays(es);
    case _ =>
  }

  lemma {:induction false} SortedStays(es: seq<Member>)
    requires UniqueKeys(es) && forall i :: 0 <= i < |es| ==> CanonEntry(es[i]) == es[i]
    ensures var once := Sort(es, KeyLe); CanonEntries(once) == once && Sort(once, KeyLe) == once
  {
    var once := Sort(es, KeyLe);
    SameElements(es, once);
    forall i | 0 <= i < |once| ensures CanonEntry(once[i]) == once[i] {
      assert once[i] in es;
    }
    assert CanonEntries(once) == once;
    KeyLeOrder();
    SortSorts(es, KeyLe);
    SortUnique(es);
    UniqueTies(once);
    SortOfSorted(once, KeyLe);
  }
}
