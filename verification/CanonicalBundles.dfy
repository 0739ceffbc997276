/**
  Campaign bundle identity: the canonical bundle document and its digest
  (packages/collection_application/src/collection_application/canonicalization.py).

  A dictionary is its list of members in insertion order.  SHA-256 is the parameter `sha`,
  from bytes to hexadecimal text.
 */
module CanonicalBundles {
  import opened Text
  import opened Utf8
  import opened Json
  import opened CanonicalJson

  datatype Component = Component(path: string, digest: string)

  function Sha256Identity(bytes: seq<Byte>, sha: seq<Byte> -> string): string {
    "sha256:" + sha(bytes)
  }

  function Components(sorted: seq<Member>, sha: seq<Byte> -> string): (cs: seq<Component>)
    ensures |cs| == |sorted|
    ensures forall i :: 0 <= i < |sorted| ==>
      cs[i] == Component(sorted[i].key, Sha256Identity(CanonicalBytes(sorted[i].value), sha))
  {
    if sorted == [] then []
    else
      [Component(sorted[0].key, Sha256Identity(CanonicalBytes(sorted[0].value), sha))] + Components(sorted[1..], sha)
  }

  /** `component_digests`: one digest per document, in path order. */
  function ComponentDigests(documents: seq<Member>, sha: seq<Byte> -> string): seq<Component> {
    Components(Sort(documents, KeyLe), sha)
  }

  predicate Contains(documents: seq<Member>, path: string) {
    exists i :: 0 <= i < |documents| && documents[i].key == path
  }

  /** `documents[path]`. */
  function Lookup(documents: seq<Member>, path: string): (v: Json)
    requires Contains(documents, path)
    ensures Member(path, v) in documents
  {
    if documents[0].key == path then documents[0].value else Lookup(documents[1..], path)
  }

  function ComponentDocument(c: Component, content: Json): Json {
    Obj([Member("path", Str(c.path)), Member("digest", Str(c.digest)), Member("content", content)])
  }

  function ComponentDocuments(components: seq<Component>, documents: seq<Member>): (r: seq<Json>)
    requires forall c :: c in components ==> Contains(documents, c.path)
    ensures |r| == |components|
    ensures forall i :: 0 <= i < |components| ==>
      r[i] == ComponentDocument(components[i], Lookup(documents, components[i].path))
  {
    if components == [] then []
    else
      [ComponentDocument(components[0], Lookup(documents, components[0].path))]
      + ComponentDocuments(components[1..], documents)
  }

  /** `canonical_bundle_document`. */
  function BundleDocument(campaignKey: string, components: seq<Component>, documents: seq<Member>): Json
    requires forall c :: c in components ==> Contains(documents, c.path)
  {
    Obj(BundleEntries(campaignKey, ComponentDocuments(components, documents)))
  }

  lemma {:induction false} ComponentsContained(documents: seq<Member>, sha: seq<Byte> -> string)
    ensures forall c :: c in ComponentDigests(documents, sha) ==> Contains(documents, c.path)
  {
    var sorted := Sort(documents, KeyLe);
    SameElements(sorted, documents);
    var cs := ComponentDigests(documents, sha);
    forall c | c in cs ensures Contains(documents, c.path) {
      var i :| 0 <= i < |cs| && cs[i] == c;
      assert sorted[i] in documents;
    }
  }

  /** The bundle content that is stored and hashed. */
  function BundleBytes(campaignKey: string, documents: seq<Member>, sha: seq<Byte> -> string): seq<Byte> {
    ComponentsContained(documents, sha);
    CanonicalBytes(BundleDocument(campaignKey, ComponentDigests(documents, sha), documents))
  }

  /** `bundle_digest`. */
  function BundleDigest(campaignKey: string, documents: seq<Member>, sha: seq<Byte> -> string): string {
    Sha256Identity(BundleBytes(campaignKey, documents, sha), sha)
  }

  // ------------------------------------------------------------ the identity

  lemma {:induction false} LookupUnique(documents: seq<Member>, m: Member)
    requires UniqueKeys(documents) && m in documents
    ensures Contains(documents, m.key) && Lookup(documents, m.key) == m.value
  {
    var i :| 0 <= i < |documents| && documents[i] == m;
    assert Contains(documents, m.key);
    assert Member(m.key, Lookup(documents, m.key)) in documents;
  }

  /** The document built directly from the members in path order. */
  function SortedDocument(m: Member, sha: seq<Byte> -> string): Json {
    ComponentDocument(Component(m.key, Sha256Identity(CanonicalBytes(m.value), sha)), m.value)
  }

  lemma {:induction false} DocumentItems(documents: seq<Member>, sha: seq<Byte> -> string) returns (items: seq<Json>)
    requires UniqueKeys(documents)
    ensures forall c :: c in ComponentDigests(documents, sha) ==> Contains(documents, c.path)
    ensures items == ComponentDocuments(ComponentDigests(documents, sha), documents)
    ensures |items| == |documents|
    ensures forall i :: 0 <= i < |items| ==> items[i] == SortedDocument(Sort(documents, KeyLe)[i], sha)
  {
    ComponentsContained(documents, sha);
    var sorted := Sort(documents, KeyLe);
    SameElements(sorted, documents);
    items := ComponentDocuments(ComponentDigests(documents, sha), documents);
    forall i | 0 <= i < |items| ensures items[i] == SortedDocument(sorted[i], sha) {
      assert sorted[i] in documents;
      LookupUnique(documents, sorted[i]);
    }
  }

  lemma {:induction false} InsertCommutes(e: Member, es: seq<Member>)
    ensures Insert(CanonEntry(e), CanonEntries(es), KeyLe) == CanonEntries(Insert(e, es, KeyLe))
  {
    var cs := CanonEntries(es);
    if es != [] {
      assert cs[0] == CanonEntry(es[0]);
      assert cs[1..] == CanonEntries(es[1..]);
      if !KeyLe(e, es[0]) {
        InsertCommutes(e, es[1..]);
      } else {
        assert ([e] + es)[1..] == es;
      }
    }
  }

  lemma {:induction false} SortCommutes(es: seq<Member>)
    ensures Sort(CanonEntries(es), KeyLe) == CanonEntries(Sort(es, KeyLe))
  {
    if es != [] {
      assert CanonEntries(es)[1..] == CanonEntries(es[1..]);
      SortCommutes(es[1..]);
      InsertCommutes(es[0], Sort(es[1..], KeyLe));
    }
  }

  /** Documents are the same data exactly when their path-ordered canonical members agree. */
  lemma {:induction false} SameDocuments(a: seq<Member>, b: seq<Member>)
    requires WellFormed(Obj(a)) && WellFormed(Obj(b))
    ensures Same(Obj(a), Obj(b)) <==> CanonEntries(Sort(a, KeyLe)) == CanonEntries(Sort(b, KeyLe))
  {
    SortCommutes(a);
    SortCommutes(b);
    assert Canon(Obj(a)) == Obj(CanonEntries(Sort(a, KeyLe)));
    assert Canon(Obj(b)) == Obj(CanonEntries(Sort(b, KeyLe)));
    if Same(Obj(a), Obj(b)) {
      SameImpliesCanon(Obj(a), Obj(b));
    } else if CanonEntries(Sort(a, KeyLe)) == CanonEntries(Sort(b, KeyLe)) {
      CanonImpliesSame(Obj(a), Obj(b));
    }
  }

  /** Records with the same field names in the same places are compared field by field. */
  lemma {:induction false} SameAt(ea: seq<Member>, eb: seq<Member>, i: nat)
    requires i < |ea| == |eb| && UniqueKeys(eb) && ea[i].key == eb[i].key && Same(Obj(ea), Obj(eb))
    ensures Same(ea[i].value, eb[i].value)
  {
    assert HasSame(ea[i], eb);
  }

  lemma {:induction false} SameAligned(ea: seq<Member>, eb: seq<Member>)
    requires |ea| == |eb| && UniqueKeys(eb) && forall i :: 0 <= i < |ea| ==> ea[i].key == eb[i].key
    ensures Same(Obj(ea), Obj(eb)) <==> forall i :: 0 <= i < |ea| ==> Same(ea[i].value, eb[i].value)
  {
    if Same(Obj(ea), Obj(eb)) {
      forall i | 0 <= i < |ea| ensures Same(ea[i].value, eb[i].value) {
        SameAt(ea, eb, i);
      }
    }
    if forall i :: 0 <= i < |ea| ==> Same(ea[i].value, eb[i].value) {
      forall i | 0 <= i < |ea| ensures HasSame(ea[i], eb) && HasKey(eb[i].key, ea) {
        assert ea[i].key == eb[i].key && Same(ea[i].value, eb[i].value);
      }
    }
  }

  lemma {:induction false} ComponentFields(c: Component, v: Json)
    ensures var es := ComponentDocument(c, v).entries;
            UniqueKeys(es) && |es| == 3
            && es[0] == Member("path", Str(c.path)) && es[1] == Member("digest", Str(c.digest))
            && es[2] == Member("content", v)
  {
    assert |"path"| == 4 && |"digest"| == 6 && |"content"| == 7;
  }

  lemma {:induction false} ComponentWellFormed(m: Member, sha: seq<Byte> -> string)
    requires WellFormed(m.value)
    ensures WellFormed(SortedDocument(m, sha))
  {
    ComponentFields(Component(m.key, Sha256Identity(CanonicalBytes(m.value), sha)), m.value);
  }

  lemma {:induction false} SameFields(ea: seq<Member>, eb: seq<Member>)
    requires |ea| == |eb| == 3 && UniqueKeys(eb) && forall i :: 0 <= i < 3 ==> ea[i].key == eb[i].key
    ensures Same(Obj(ea), Obj(eb)) <==>
      Same(ea[0].value, eb[0].value) && Same(ea[1].value, eb[1].value) && Same(ea[2].value, eb[2].value)
  {
    SameAligned(ea, eb);
  }

  lemma {:induction false} SameComponent(m: Member, n: Member, sha: seq<Byte> -> string)
    requires WellFormed(m.value) && WellFormed(n.value)
    ensures Same(SortedDocument(m, sha), SortedDocument(n, sha)) <==> CanonEntry(m) == CanonEntry(n)
  {
    var c := Component(m.key, Sha256Identity(CanonicalBytes(m.value), sha));
    var d := Component(n.key, Sha256Identity(CanonicalBytes(n.value), sha));
    ComponentFields(c, m.value);
    ComponentFields(d, n.value);
    SameFields(ComponentDocument(c, m.value).entries, ComponentDocument(d, n.value).entries);
    SameIsCanon(m.value, n.value);
  }

  lemma {:induction false} SameIsCanon(a: Json, b: Json)
    requires WellFormed(a) && WellFormed(b)
    ensures Same(a, b) <==> Canon(a) == Canon(b)
  {
    if Same(a, b) {
      SameImpliesCanon(a, b);
    }
    if Canon(a) == Canon(b) {
      CanonImpliesSame(a, b);
    }
  }

  function BundleEntries(campaignKey: string, items: seq<Json>): (es: seq<Member>)
    ensures |es| == 2 && UniqueKeys(es)
  {
    assert |"campaignKey"| == 11 && |"components"| == 10;
    [Member("campaignKey", Str(campaignKey)), Member("components", Arr(items))]
  }

  lemma {:induction false} SameBundle(k1: string, xs: seq<Json>, k2: string, ys: seq<Json>)
    ensures Same(Obj(BundleEntries(k1, xs)), Obj(BundleEntries(k2, ys))) <==> k1 == k2 && Same(Arr(xs), Arr(ys))
  {
    var ea, eb := BundleEntries(k1, xs), BundleEntries(k2, ys);
    SameAligned(ea, eb);
    assert ea[0].value == Str(k1) && eb[0].value == Str(k2) && ea[1].value == Arr(xs) && eb[1].value == Arr(ys);
  }

  lemma {:induction false} SortedWellFormed(documents: seq<Member>)
    requires WellFormed(Obj(documents))
    ensures forall m :: m in Sort(documents, KeyLe) ==> WellFormed(m.value)
  {
    SameElements(Sort(documents, KeyLe), documents);
  }

  lemma {:induction false} BundleWellFormed(campaignKey: string, items: seq<Json>)
    requires forall i :: 0 <= i < |items| ==> WellFormed(items[i])
    ensures WellFormed(Obj(BundleEntries(campaignKey, items)))
  {
  }

  /**
    Two bundles have the same bytes exactly when their campaign key and their
    path-to-content map are equal, in whatever order either map was filled.
   */
  lemma {:induction false} BundleBytesIdentify(
    k1: string, a: seq<Member>, k2: string, b: seq<Member>, sha: seq<Byte> -> string)
    requires WellFormed(Obj(a)) && WellFormed(Obj(b))
    ensures BundleBytes(k1, a, sha) == BundleBytes(k2, b, sha) <==> k1 == k2 && Same(Obj(a), Obj(b))
  {
    var sa, sb := Sort(a, KeyLe), Sort(b, KeyLe);
    var xs := DocumentItems(a, sha);
    var ys := DocumentItems(b, sha);
    SortedWellFormed(a);
    SortedWellFormed(b);
    forall i | 0 <= i < |xs| ensures WellFormed(xs[i]) {
      ComponentWellFormed(sa[i], sha);
    }
    forall i | 0 <= i < |ys| ensures WellFormed(ys[i]) {
      ComponentWellFormed(sb[i], sha);
    }
    BundleWellFormed(k1, xs);
    BundleWellFormed(k2, ys);
    CanonicalBytesIdentify(Obj(BundleEntries(k1, xs)), Obj(BundleEntries(k2, ys)));
    SameBundle(k1, xs, k2, ys);
    SameItems(sa, xs, sb, ys, sha);
    SameDocuments(a, b);
  }

  lemma {:induction false} SameItems(
    sa: seq<Member>, xs: seq<Json>, sb: seq<Member>, ys: seq<Json>, sha: seq<Byte> -> string)
    requires |xs| == |sa| && forall i :: 0 <= i < |xs| ==> xs[i] == SortedDocument(sa[i], sha)
    requires |ys| == |sb| && forall i :: 0 <= i < |ys| ==> ys[i] == SortedDocument(sb[i], sha)
    requires (forall m :: m in sa ==> WellFormed(m.value)) && (forall m :: m in sb ==> WellFormed(m.value))
    ensures Same(Arr(xs), Arr(ys)) <==> CanonEntries(sa) == CanonEntries(sb)
  {
    if |xs| == |ys| {
      forall i | 0 <= i < |xs| ensures Same(xs[i], ys[i]) <==> CanonEntry(sa[i]) == CanonEntry(sb[i]) {
        SameComponent(sa[i], sb[i], sha);
      }
      if Same(Arr(xs), Arr(ys)) {
        assert CanonEntries(sa) == CanonEntries(sb);
      } else if CanonEntries(sa) == CanonEntries(sb) {
        forall i | 0 <= i < |xs| ensures Same(xs[i], ys[i]) {
          assert CanonEntries(sa)[i] == CanonEntries(sb)[i];
        }
      }
    } else {
      assert |CanonEntries(sa)| != |CanonEntries(sb)|;
    }
  }

  /** With a collision-free SHA-256 the bundle digest is an identity of the bundle. */
  lemma {:induction false} BundleDigestIdentifies(
    k1: string, a: seq<Member>, k2: string, b: seq<Member>, sha: seq<Byte> -> string)
    requires WellFormed(Obj(a)) && WellFormed(Obj(b))
    requires forall x, y :: sha(x) == sha(y) ==> x == y
    ensures BundleDigest(k1, a, sha) == BundleDigest(k2, b, sha) <==> k1 == k2 && Same(Obj(a), Obj(b))
  {
    BundleBytesIdentify(k1, a, k2, b, sha);
    var x, y := BundleBytes(k1, a, sha), BundleBytes(k2, b, sha);
    if Sha256Identity(x, sha) == Sha256Identity(y, sha) {
      assert sha(x) == ("sha256:" + sha(x))[7..];
      assert sha(y) == ("sha256:" + sha(y))[7..];
    }
  }

  // ------------------------------------------------------ the hashed document

  /** One stored document: its path, the digest of its own canonical text, and its content. */
  ghost predicate Stores(item: Json, m: Member, sha: seq<Byte> -> string) {
    && item.Obj? && |item.entries| == 3
    && Binds(item, "path", Str(m.key)) && Binds(item, "content", m.value)
    && Binds(item, "digest", Str("sha256:" + sha(CanonicalBytes(m.value))))
  }

  /** What is hashed: the campaign key, and every document once, in ascending order of the paths. */
  lemma {:induction false} BundleSays(campaignKey: string, documents: seq<Member>, sha: seq<Byte> -> string)
    returns (v: Json, items: seq<Json>, sorted: seq<Member>)
    requires UniqueKeys(documents)
    ensures BundleBytes(campaignKey, documents, sha) == CanonicalBytes(v)
    ensures BundleDigest(campaignKey, documents, sha) == "sha256:" + sha(CanonicalBytes(v))
    ensures v.Obj? && |v.entries| == 2
    ensures Binds(v, "campaignKey", Str(campaignKey)) && Binds(v, "components", Arr(items))
    ensures multiset(sorted) == multiset(documents) && |items| == |sorted|
    ensures forall i, j :: 0 <= i < j < |sorted| ==> StrLt(sorted[i].key, sorted[j].key)
    ensures forall i :: 0 <= i < |items| ==> Stores(items[i], sorted[i], sha)
  {
    items := DocumentItems(documents, sha);
    sorted := Sort(documents, KeyLe);
    v := BundleDocument(campaignKey, ComponentDigests(documents, sha), documents);
    BundleBinds(campaignKey, items);
    KeyLeOrder();
    SortSorts(documents, KeyLe);
    SortUnique(documents);
    forall i, j | 0 <= i < j < |sorted| ensures StrLt(sorted[i].key, sorted[j].key) {
      assert KeyLe(sorted[i], sorted[j]) && sorted[i].key != sorted[j].key;
    }
    forall i | 0 <= i < |items| ensures Stores(items[i], sorted[i], sha) {
      DocumentStores(sorted[i], sha);
    }
  }

  lemma {:induction false} BundleBinds(campaignKey: string, items: seq<Json>)
    ensures var v := Obj(BundleEntries(campaignKey, items));
      Binds(v, "campaignKey", Str(campaignKey)) && Binds(v, "components", Arr(items))
  {
    var es := BundleEntries(campaignKey, items);
    assert es[0] == Member("campaignKey", Str(campaignKey)) && es[1] == Member("components", Arr(items));
  }

  lemma {:induction false} DocumentStores(m: Member, sha: seq<Byte> -> string)
    ensures Stores(SortedDocument(m, sha), m, sha)
  {
    var c := Component(m.key, Sha256Identity(CanonicalBytes(m.value), sha));
    ComponentFields(c, m.value);
    var es := ComponentDocument(c, m.value).entries;
    assert es[0] in es && es[1] in es && es[2] in es;
  }
}
