/**
  The path-to-content dictionary behind a campaign bundle: `canonical_documents`
  (packages/collection_application/src/collection_application/canonicalization.py).

  The dumped documents are inputs.  Everything is stored under its path in one dictionary, so a
  later document replaces an earlier one with the same path.
 */
module CanonicalDocuments {
  import opened Text
  import opened Utf8
  import opened Json
  import opened CanonicalJson
  import CanonicalBundles

  /** The dumps of a parsed campaign: dictionaries are lists of members in insertion order. */
  datatype Loaded = Loaded(
    campaign: Json, entityKinds: Json, taxonomy: Json, attributes: Json, sourceBindings: Json,
    geography: Option<Geography>, policies: seq<Member>, seeds: seq<Member>)

  datatype Geography = Geography(document: Json, artifacts: seq<Member>)

  // ---------------------------------------------------------- dictionaries

  /** `result[key] = value`: in place, or at the end. */
  function Put(d: seq<Member>, m: Member): seq<Member> {
    if d == [] then [m]
    else if d[0].key == m.key then [m] + d[1..]
    else [d[0]] + Put(d[1..], m)
  }

  /** The dictionary after these assignments. */
  function Dict(writes: seq<Member>): seq<Member> {
    if writes == [] then [] else Put(Dict(writes[..|writes| - 1]), writes[|writes| - 1])
  }

  lemma {:induction false} DictNext(writes: seq<Member>, m: Member)
    ensures Dict(writes + [m]) == Put(Dict(writes), m)
  {
    assert (writes + [m])[..|writes|] == writes;
  }

  /** Some member has this key. */
  ghost predicate Has(d: seq<Member>, key: string) {
    exists i :: 0 <= i < |d| && d[i].key == key
  }

  lemma {:induction false} PutNew(d: seq<Member>, m: Member)
    requires !Has(d, m.key)
    ensures Put(d, m) == d + [m]
  {
    if d != [] {
      assert d[0].key != m.key;
      forall i | 0 <= i < |d[1..]| ensures d[1..][i].key != m.key {
        assert d[i + 1].key != m.key;
      }
      PutNew(d[1..], m);
      assert d == [d[0]] + d[1..];
    }
  }

  /** What an assignment replaces is forgotten. */
  lemma {:induction false} PutTwice(d: seq<Member>, m: Member, n: Member)
    requires m.key == n.key
    ensures Put(Put(d, m), n) == Put(d, n)
  {
    if d == [] {
      assert [m][1..] == [];
    } else if d[0].key == m.key {
      assert ([m] + d[1..])[1..] == d[1..];
    } else {
      assert ([d[0]] + Put(d[1..], m))[1..] == Put(d[1..], m);
      PutTwice(d[1..], m, n);
    }
  }

  lemma {:induction false} HasPut(d: seq<Member>, m: Member, key: string)
    ensures Has(Put(d, m), key) <==> Has(d, key) || key == m.key
  {
    if d == [] {
      assert [m][0].key == m.key;
    } else if d[0].key == m.key {
      HasCons(d[0], d[1..], key);
      HasCons(m, d[1..], key);
      assert d == [d[0]] + d[1..];
    } else {
      HasPut(d[1..], m, key);
      HasCons(d[0], d[1..], key);
      HasCons(d[0], Put(d[1..], m), key);
      assert d == [d[0]] + d[1..];
    }
  }

  lemma {:induction false} HasCons(x: Member, d: seq<Member>, key: string)
    ensures Has([x] + d, key) <==> x.key == key || Has(d, key)
  {
    var all := [x] + d;
    if i :| 0 <= i < |all| && all[i].key == key {
      assert i == 0 || d[i - 1].key == key;
    }
    if i :| 0 <= i < |d| && d[i].key == key {
      assert all[i + 1].key == key;
    }
    assert all[0] == x;
  }

  lemma {:induction false} HasDict(writes: seq<Member>, key: string)
    ensures Has(Dict(writes), key) <==> Has(writes, key)
  {
    if writes != [] {
      var init, last := writes[..|writes| - 1], writes[|writes| - 1];
      HasDict(init, key);
      HasPut(Dict(init), last, key);
      if i :| 0 <= i < |writes| && writes[i].key == key {
        assert i == |init| || init[i].key == key;
      }
      if i :| 0 <= i < |init| && init[i].key == key {
        assert writes[i].key == key;
      }
      assert writes[|init|] == last;
    }
  }

  lemma {:induction false} PutUnique(d: seq<Member>, m: Member)
    requires UniqueKeys(d)
    ensures UniqueKeys(Put(d, m))
  {
    if d != [] && d[0].key != m.key {
      PutUnique(d[1..], m);
      var rest := Put(d[1..], m);
      forall i | 0 <= i < |rest| ensures rest[i].key != d[0].key {
        HasPut(d[1..], m, rest[i].key);
        if rest[i].key != m.key {
          var j :| 0 <= j < |d[1..]| && d[1..][j].key == rest[i].key;
          assert d[j + 1].key != d[0].key;
        }
      }
    }
  }

  lemma {:induction false} DictUnique(writes: seq<Member>)
    ensures UniqueKeys(Dict(writes))
  {
    if writes != [] {
      DictUnique(writes[..|writes| - 1]);
      PutUnique(Dict(writes[..|writes| - 1]), writes[|writes| - 1]);
    }
  }

  /** Without a repeated path the dictionary is the list of assignments itself. */
  lemma {:induction false} DictOfDistinct(writes: seq<Member>)
    requires UniqueKeys(writes)
    ensures Dict(writes) == writes
  {
    if writes != [] {
      var init, last := writes[..|writes| - 1], writes[|writes| - 1];
      DictOfDistinct(init);
      forall i | 0 <= i < |init| ensures init[i].key != last.key {
        assert writes[i].key != writes[|init|].key;
      }
      PutNew(init, last);
      assert writes == init + [last];
    }
  }

  // --------------------------------------------------------- the documents

  function GeographyWrites(g: Option<Geography>): seq<Member> {
    if g.None? then [] else [Member("geography.yaml", g.value.document)] + g.value.artifacts
  }

  function PolicyWrite(p: Member): Member {
    Member("source_policies/" + p.key + ".yaml", p.value)
  }

  function PolicyWrites(policies: seq<Member>): (r: seq<Member>)
    ensures |r| == |policies| && forall i :: 0 <= i < |policies| ==> r[i] == PolicyWrite(policies[i])
  {
    if policies == [] then [] else [PolicyWrite(policies[0])] + PolicyWrites(policies[1..])
  }

  function FixedWrites(l: Loaded): seq<Member> {
    [Member("campaign.yaml", l.campaign), Member("entity_kinds.yaml", l.entityKinds),
     Member("taxonomy.yaml", l.taxonomy), Member("attributes.yaml", l.attributes),
     Member("source_bindings.yaml", l.sourceBindings)]
  }

  /** Every document with its path, in the order in which they are stored. */
  function Writes(l: Loaded): seq<Member> {
    FixedWrites(l) + GeographyWrites(l.geography) + PolicyWrites(l.policies) + l.seeds
  }

  /** `result.update(more)`. */
  method Update(d: seq<Member>, more: seq<Member>, ghost writes: seq<Member>) returns (r: seq<Member>)
    requires d == Dict(writes)
    ensures r == Dict(writes + more)
  {
    r := d;
    assert writes + more[..0] == writes;
    for i := 0 to |more|
      invariant r == Dict(writes + more[..i])
    {
      DictNext(writes + more[..i], more[i]);
      assert writes + more[..i + 1] == writes + more[..i] + [more[i]];
      r := Put(r, more[i]);
    }
    assert more[..|more|] == more;
  }

  lemma {:induction false} FixedDistinct(l: Loaded)
    ensures UniqueKeys(FixedWrites(l))
  {
    var w := FixedWrites(l);
    assert |w[0].key| == 13 && |w[1].key| == 17 && |w[2].key| == 13 && |w[3].key| == 15 && |w[4].key| == 20;
    assert w[0].key[0] == 'c' && w[2].key[0] == 't';
  }

  /** `canonical_documents`. */
  method CanonicalDocuments(l: Loaded) returns (result: seq<Member>)
    ensures result == Dict(Writes(l))
    ensures UniqueKeys(result)
    ensures PathsOk(l) && SeedsApart(l) ==> Filed(l, result)
  {
    EveryDocumentFiled(l);
    FixedDistinct(l);
    DictOfDistinct(FixedWrites(l));
    result := FixedWrites(l);
    ghost var writes := FixedWrites(l);
    if l.geography.Some? {
      result := Update(result, [Member("geography.yaml", l.geography.value.document)], writes);
      writes := writes + [Member("geography.yaml", l.geography.value.document)];
      result := Update(result, l.geography.value.artifacts, writes);
      writes := writes + l.geography.value.artifacts;
    }
    assert writes == FixedWrites(l) + GeographyWrites(l.geography);
    result := Update(result, PolicyWrites(l.policies), writes);
    writes := writes + PolicyWrites(l.policies);
    result := Update(result, l.seeds, writes);
    DictUnique(Writes(l));
  }

  // ------------------------------------------------- what the digest covers

  /** The digest of the bundle in which these documents are stored. */
  function StoredDigest(campaignKey: string, writes: seq<Member>, sha: seq<Byte> -> string): string {
    CanonicalBundles.BundleDigest(campaignKey, Dict(writes), sha)
  }

  ghost predicate AllWellFormed(writes: seq<Member>) {
    forall i :: 0 <= i < |writes| ==> WellFormed(writes[i].value)
  }

  /** Document `i` with other content. */
  function Edited(writes: seq<Member>, i: nat, v: Json): seq<Member>
    requires i < |writes|
  {
    writes[i := Member(writes[i].key, v)]
  }

  /** No change to the content of a single document leaves the digest as it was. */
  ghost predicate Covered(campaignKey: string, writes: seq<Member>, sha: seq<Byte> -> string) {
    forall i: nat, v: Json :: i < |writes| && WellFormed(v) && !Same(v, writes[i].value) ==>
      StoredDigest(campaignKey, Edited(writes, i, v), sha) != StoredDigest(campaignKey, writes, sha)
  }

  lemma {:induction false} DictWellFormed(writes: seq<Member>)
    requires AllWellFormed(writes)
    ensures AllWellFormed(Dict(writes))
    decreases |writes|
  {
    if writes != [] {
      DictWellFormed(writes[..|writes| - 1]);
      PutWellFormed(Dict(writes[..|writes| - 1]), writes[|writes| - 1]);
    }
  }

  lemma {:induction false} PutWellFormed(d: seq<Member>, m: Member)
    requires AllWellFormed(d) && WellFormed(m.value)
    ensures AllWellFormed(Put(d, m))
  {
    if d != [] && d[0].key != m.key {
      PutWellFormed(d[1..], m);
    }
  }

  /** Two dictionaries with the same keys in the same places that differ at most at one key. */
  ghost predicate AgreeBut(d: seq<Member>, e: seq<Member>, key: string) {
    |d| == |e| && forall i :: 0 <= i < |d| ==> d[i].key == e[i].key && (d[i].key != key ==> d[i] == e[i])
  }

  lemma {:induction false} AgreeCons(x: Member, y: Member, d: seq<Member>, e: seq<Member>, key: string)
    requires AgreeBut(d, e, key) && x.key == y.key && (x.key != key ==> x == y)
    ensures AgreeBut([x] + d, [y] + e, key)
  {
  }

  lemma {:induction false} PutAgrees(d: seq<Member>, e: seq<Member>, key: string, m: Member, n: Member)
    requires AgreeBut(d, e, key) && m.key == n.key && (m.key != key ==> m == n)
    ensures AgreeBut(Put(d, m), Put(e, n), key)
  {
    if d == [] {
      AgreeCons(m, n, [], [], key);
      assert [m] + [] == [m] && [n] + [] == [n];
    } else if d[0].key == m.key {
      AgreeCons(m, n, d[1..], e[1..], key);
    } else {
      PutAgrees(d[1..], e[1..], key, m, n);
      AgreeCons(d[0], e[0], Put(d[1..], m), Put(e[1..], n), key);
    }
  }

  /** Assigning the key at which two dictionaries differ makes them equal. */
  lemma {:induction false} PutLevels(d: seq<Member>, e: seq<Member>, m: Member)
    requires AgreeBut(d, e, m.key) && UniqueKeys(d)
    ensures Put(d, m) == Put(e, m)
  {
    if d != [] {
      if d[0].key == m.key {
        forall i | 0 <= i < |d[1..]| ensures d[1..][i] == e[1..][i] {
          assert d[i + 1].key != d[0].key;
        }
        assert d[1..] == e[1..];
      } else {
        PutLevels(d[1..], e[1..], m);
      }
    }
  }

  lemma {:induction false} EditAgrees(writes: seq<Member>, i: nat, v: Json)
    requires i < |writes|
    ensures AgreeBut(Dict(Edited(writes, i, v)), Dict(writes), writes[i].key)
    decreases |writes|
  {
    var init, last := writes[..|writes| - 1], writes[|writes| - 1];
    var edited := Edited(writes, i, v);
    if i < |init| {
      assert edited[..|writes| - 1] == Edited(init, i, v);
      EditAgrees(init, i, v);
      PutAgrees(Dict(Edited(init, i, v)), Dict(init), writes[i].key, last, last);
    } else {
      assert edited[..|writes| - 1] == init;
      PutAgrees(Dict(init), Dict(init), writes[i].key, Member(last.key, v), last);
    }
  }

  /** The content of a document that a later one replaces does not matter. */
  lemma {:induction false} ReplacedDoesNotMatter(writes: seq<Member>, i: nat, j: nat, v: Json)
    requires i < j < |writes| && writes[i].key == writes[j].key
    ensures Dict(Edited(writes, i, v)) == Dict(writes)
    decreases |writes|
  {
    var init, last := writes[..|writes| - 1], writes[|writes| - 1];
    assert Edited(writes, i, v)[..|writes| - 1] == Edited(init, i, v);
    if j < |init| {
      ReplacedDoesNotMatter(init, i, j, v);
    } else {
      EditAgrees(init, i, v);
      DictUnique(Edited(init, i, v));
      PutLevels(Dict(Edited(init, i, v)), Dict(init), last);
    }
  }

  ghost predicate Injective(sha: seq<Byte> -> string) {
    forall x, y :: sha(x) == sha(y) ==> x == y
  }

  lemma {:induction false} EditDiffers(writes: seq<Member>, i: nat, v: Json)
    requires AllWellFormed(writes) && UniqueKeys(writes)
    requires i < |writes| && WellFormed(v) && !Same(v, writes[i].value)
    ensures UniqueKeys(Edited(writes, i, v)) && AllWellFormed(Edited(writes, i, v))
    ensures !Same(Obj(Edited(writes, i, v)), Obj(writes))
  {
    var edited := Edited(writes, i, v);
    CanonicalBundles.SameAligned(edited, writes);
    assert edited[i].value == v;
  }

  lemma {:induction false} DifferentDigests(
    campaignKey: string, a: seq<Member>, b: seq<Member>, sha: seq<Byte> -> string)
    requires AllWellFormed(a) && UniqueKeys(a) && AllWellFormed(b) && UniqueKeys(b)
    requires Injective(sha) && !Same(Obj(a), Obj(b))
    ensures StoredDigest(campaignKey, a, sha) != StoredDigest(campaignKey, b, sha)
  {
    DictOfDistinct(a);
    DictOfDistinct(b);
    CanonicalBundles.BundleDigestIdentifies(campaignKey, a, campaignKey, b, sha);
  }

  /** Content that differs from `v`. */
  function Other(v: Json): (r: Json)
    ensures WellFormed(r) && r != v && (r == Null || r == Str(""))
  {
    if v == Null then Str("") else Null
  }

  lemma {:induction false} OtherDiffers(v: Json)
    ensures !Same(Other(v), v)
  {
  }

  /** The bundle digest covers the content of every loaded document exactly when no two of them share a path. */
  lemma {:induction false} DigestCovers(campaignKey: string, writes: seq<Member>, sha: seq<Byte> -> string)
    requires AllWellFormed(writes) && Injective(sha)
    ensures Covered(campaignKey, writes, sha) <==> UniqueKeys(writes)
  {
    if UniqueKeys(writes) {
      forall i: nat, v: Json | i < |writes| && WellFormed(v) && !Same(v, writes[i].value)
        ensures StoredDigest(campaignKey, Edited(writes, i, v), sha) != StoredDigest(campaignKey, writes, sha)
      {
        EditDiffers(writes, i, v);
        DifferentDigests(campaignKey, Edited(writes, i, v), writes, sha);
      }
    } else {
      var i, j :| 0 <= i < j < |writes| && writes[i].key == writes[j].key;
      var v := Other(writes[i].value);
      OtherDiffers(writes[i].value);
      ReplacedDoesNotMatter(writes, i, j, v);
      assert StoredDigest(campaignKey, Edited(writes, i, v), sha) == StoredDigest(campaignKey, writes, sha);
    }
  }

  lemma {:induction false} DistinctWritesIdentify(
    k: string, a: seq<Member>, l: string, b: seq<Member>, sha: seq<Byte> -> string)
    requires AllWellFormed(a) && AllWellFormed(b) && Injective(sha) && UniqueKeys(a) && UniqueKeys(b)
    ensures StoredDigest(k, a, sha) == StoredDigest(l, b, sha) <==> k == l && Same(Obj(a), Obj(b))
  {
    DictOfDistinct(a);
    DictOfDistinct(b);
    CanonicalBundles.BundleDigestIdentifies(k, a, l, b, sha);
  }

  // ------------------------------------------------- which paths can collide

  /** What the contracts guarantee of paths: dictionaries have unique keys, and the geography artifacts
      lie under "geography/". */
  ghost predicate PathsOk(l: Loaded) {
    && UniqueKeys(l.policies) && UniqueKeys(l.seeds)
    && (l.geography.Some? ==> ArtifactsOk(l.geography.value.artifacts))
  }

  ghost predicate ArtifactsOk(artifacts: seq<Member>) {
    UniqueKeys(artifacts) && forall i :: 0 <= i < |artifacts| ==> "geography/" <= artifacts[i].key
  }

  /** Every document but the seeds. */
  function OwnDocuments(l: Loaded): seq<Member> {
    FixedWrites(l) + GeographyWrites(l.geography) + PolicyWrites(l.policies)
  }

  lemma {:induction false} UniqueConcat(a: seq<Member>, b: seq<Member>)
    requires UniqueKeys(a) && UniqueKeys(b)
    ensures UniqueKeys(a + b) <==> forall i :: 0 <= i < |b| ==> !Has(a, b[i].key)
  {
    var all := a + b;
    if UniqueKeys(all) {
      forall i | 0 <= i < |b| ensures !Has(a, b[i].key) {
        forall j | 0 <= j < |a| ensures a[j].key != b[i].key {
          assert all[j].key != all[|a| + i].key;
        }
      }
    }
    if forall i :: 0 <= i < |b| ==> !Has(a, b[i].key) {
      forall i, j | 0 <= i < j < |all| ensures all[i].key != all[j].key {
        if i < |a| <= j {
          assert !Has(a, b[j - |a|].key);
          assert a[i] == all[i];
        } else if i >= |a| {
          assert all[i] == b[i - |a|] && all[j] == b[j - |a|];
        }
      }
    }
  }

  /** The eighth letter tells the kinds of paths apart. */
  predicate Eighth(ms: seq<Member>, letters: set<char>) {
    forall i :: 0 <= i < |ms| ==> |ms[i].key| > 9 && ms[i].key[7] in letters
  }

  lemma {:induction false} FixedEighth(l: Loaded)
    ensures Eighth(FixedWrites(l), {'n', 'k', 'y', 't', 'b'})
  {
    var w := FixedWrites(l);
    assert w[0].key[7] == 'n' && w[1].key[7] == 'k' && w[2].key[7] == 'y' && w[3].key[7] == 't' && w[4].key[7] == 'b';
  }

  lemma {:induction false} GeographyEighth(l: Loaded)
    requires PathsOk(l)
    ensures Eighth(GeographyWrites(l.geography), {'h'}) && UniqueKeys(GeographyWrites(l.geography))
  {
    if l.geography.Some? {
      var artifacts := l.geography.value.artifacts;
      assert "geography/"[7] == 'h' && "geography/"[9] == '/';
      assert "geography.yaml"[7] == 'h' && "geography.yaml"[9] == '.';
      forall i | 0 <= i < |artifacts| ensures artifacts[i].key[7] == 'h' && artifacts[i].key[9] == '/' {
        assert "geography/" <= artifacts[i].key;
      }
    }
  }

  lemma {:induction false} PolicyEighth(policies: seq<Member>)
    requires UniqueKeys(policies)
    ensures Eighth(PolicyWrites(policies), {'p'}) && UniqueKeys(PolicyWrites(policies))
  {
    var w := PolicyWrites(policies);
    forall i | 0 <= i < |w| ensures |w[i].key| > 9 && w[i].key[7] == 'p' {
      PolicyPath(policies[i].key);
    }
    forall i, j | 0 <= i < j < |w| ensures w[i].key != w[j].key {
      if w[i].key == w[j].key {
        Sandwich("source_policies/", policies[i].key, policies[j].key, ".yaml");
      }
    }
  }

  lemma {:induction false} PolicyPath(key: string)
    ensures var p := "source_policies/" + key + ".yaml"; |p| > 9 && p[7] == 'p'
  {
    assert "source_policies/"[7] == 'p';
  }

  lemma {:induction false} EighthApart(a: seq<Member>, x: set<char>, b: seq<Member>, y: set<char>)
    requires Eighth(a, x) && Eighth(b, y) && x !! y && UniqueKeys(a) && UniqueKeys(b)
    ensures UniqueKeys(a + b) && Eighth(a + b, x + y)
  {
    forall i | 0 <= i < |b| ensures !Has(a, b[i].key) {
      forall j | 0 <= j < |a| ensures a[j].key != b[i].key {
        assert a[j].key[7] in x && b[i].key[7] in y;
      }
    }
    UniqueConcat(a, b);
  }

  /** A collision is a seed file named like another document: nothing else can share a path. */
  lemma {:induction false} OnlySeedsCollide(l: Loaded)
    requires PathsOk(l)
    ensures UniqueKeys(Writes(l)) <==> forall i :: 0 <= i < |l.seeds| ==> !Has(OwnDocuments(l), l.seeds[i].key)
  {
    FixedDistinct(l);
    FixedEighth(l);
    GeographyEighth(l);
    PolicyEighth(l.policies);
    EighthApart(FixedWrites(l), {'n', 'k', 'y', 't', 'b'}, GeographyWrites(l.geography), {'h'});
    EighthApart(FixedWrites(l) + GeographyWrites(l.geography), {'n', 'k', 'y', 't', 'b'} + {'h'},
                PolicyWrites(l.policies), {'p'});
    UniqueConcat(OwnDocuments(l), l.seeds);
  }

  /** A seed file named "campaign.yaml" takes the place of the campaign: the digest no longer covers it. */
  lemma {:induction false} SeedReplacesCampaign(campaignKey: string, l: Loaded, i: nat, sha: seq<Byte> -> string)
    requires PathsOk(l) && AllWellFormed(Writes(l)) && Injective(sha)
    requires i < |l.seeds| && l.seeds[i].key == "campaign.yaml"
    ensures !Covered(campaignKey, Writes(l), sha)
  {
    assert OwnDocuments(l)[0].key == l.seeds[i].key;
    OnlySeedsCollide(l);
    DigestCovers(campaignKey, Writes(l), sha);
  }

  // ------------------------------------------- the documents, field by field

  /** The dictionary holds each document of the campaign under its own path, and nothing else. */
  ghost predicate Filed(l: Loaded, d: seq<Member>) {
    && Member("campaign.yaml", l.campaign) in d
    && Member("entity_kinds.yaml", l.entityKinds) in d
    && Member("taxonomy.yaml", l.taxonomy) in d
    && Member("attributes.yaml", l.attributes) in d
    && Member("source_bindings.yaml", l.sourceBindings) in d
    && (l.geography.Some? ==> Member("geography.yaml", l.geography.value.document) in d)
    && (l.geography.Some? ==> forall m :: m in l.geography.value.artifacts ==> m in d)
    && (forall m :: m in l.policies ==> Member("source_policies/" + m.key + ".yaml", m.value) in d)
    && (forall m :: m in l.seeds ==> m in d)
    && |d| == 5 + GeographySize(l.geography) + |l.policies| + |l.seeds|
  }

  function GeographySize(g: Option<Geography>): nat {
    if g.None? then 0 else 1 + |g.value.artifacts|
  }

  /** No seed file is named like another document. */
  ghost predicate SeedsApart(l: Loaded) {
    forall s :: s in l.seeds ==>
      && s.key !in ["campaign.yaml", "entity_kinds.yaml", "taxonomy.yaml", "attributes.yaml", "source_bindings.yaml"]
      && (l.geography.Some? ==>
          s.key != "geography.yaml" && forall m :: m in l.geography.value.artifacts ==> s.key != m.key)
      && (forall m :: m in l.policies ==> s.key != "source_policies/" + m.key + ".yaml")
  }

  lemma {:induction false} HasConcat(a: seq<Member>, b: seq<Member>, key: string)
    ensures Has(a + b, key) <==> Has(a, key) || Has(b, key)
  {
    var all := a + b;
    if i :| 0 <= i < |all| && all[i].key == key {
      assert if i < |a| then a[i].key == key else b[i - |a|].key == key;
    }
    if i :| 0 <= i < |a| && a[i].key == key {
      assert all[i].key == key;
    }
    if i :| 0 <= i < |b| && b[i].key == key {
      assert all[|a| + i].key == key;
    }
  }

  lemma {:induction false} FixedHas(l: Loaded, key: string)
    ensures Has(FixedWrites(l), key) <==>
      key in ["campaign.yaml", "entity_kinds.yaml", "taxonomy.yaml", "attributes.yaml", "source_bindings.yaml"]
  {
    var w := FixedWrites(l);
    assert |w| == 5;
    assert w[0].key == "campaign.yaml" && w[1].key == "entity_kinds.yaml" && w[2].key == "taxonomy.yaml"
        && w[3].key == "attributes.yaml" && w[4].key == "source_bindings.yaml";
    var paths := ["campaign.yaml", "entity_kinds.yaml", "taxonomy.yaml", "attributes.yaml", "source_bindings.yaml"];
    FivePaths(w, paths, key);
  }

  lemma {:induction false} FivePaths(w: seq<Member>, paths: seq<string>, key: string)
    requires |w| == |paths| && forall i :: 0 <= i < |w| ==> w[i].key == paths[i]
    ensures Has(w, key) <==> key in paths
  {
    if key in paths {
      var i :| 0 <= i < |paths| && paths[i] == key;
      assert w[i].key == key;
    }
  }

  lemma {:induction false} SeedsApartIsDistinct(l: Loaded)
    requires PathsOk(l)
    ensures SeedsApart(l) <==> UniqueKeys(Writes(l))
  {
    OnlySeedsCollide(l);
    forall i | 0 <= i < |l.seeds|
      ensures Has(OwnDocuments(l), l.seeds[i].key) <==> Taken(l, l.seeds[i].key)
    {
      OwnHas(l, l.seeds[i].key);
    }
    if SeedsApart(l) {
      forall i | 0 <= i < |l.seeds| ensures !Has(OwnDocuments(l), l.seeds[i].key) {
        assert l.seeds[i] in l.seeds;
      }
    }
    if UniqueKeys(Writes(l)) {
      forall s | s in l.seeds ensures !Taken(l, s.key) {
        var i :| 0 <= i < |l.seeds| && l.seeds[i] == s;
      }
    }
  }

  /** The path belongs to a document that is not a seed. */
  ghost predicate Taken(l: Loaded, key: string) {
    || key in ["campaign.yaml", "entity_kinds.yaml", "taxonomy.yaml", "attributes.yaml", "source_bindings.yaml"]
    || (l.geography.Some? &&
        (key == "geography.yaml" || exists m :: m in l.geography.value.artifacts && key == m.key))
    || (exists m :: m in l.policies && key == "source_policies/" + m.key + ".yaml")
  }

  lemma {:induction false} OwnHas(l: Loaded, key: string)
    ensures Has(OwnDocuments(l), key) <==> Taken(l, key)
  {
    HasConcat(FixedWrites(l) + GeographyWrites(l.geography), PolicyWrites(l.policies), key);
    HasConcat(FixedWrites(l), GeographyWrites(l.geography), key);
    FixedHas(l, key);
    GeographyHas(l.geography, key);
    PolicyHas(l.policies, key);
  }

  lemma {:induction false} GeographyHas(g: Option<Geography>, key: string)
    ensures Has(GeographyWrites(g), key) <==>
      g.Some? && (key == "geography.yaml" || exists m :: m in g.value.artifacts && key == m.key)
  {
    if g.Some? {
      HasCons(Member("geography.yaml", g.value.document), g.value.artifacts, key);
      if m :| m in g.value.artifacts && key == m.key {
        var i :| 0 <= i < |g.value.artifacts| && g.value.artifacts[i] == m;
        assert Has(g.value.artifacts, key);
      }
      if i :| 0 <= i < |g.value.artifacts| && g.value.artifacts[i].key == key {
        assert g.value.artifacts[i] in g.value.artifacts;
      }
    }
  }

  lemma {:induction false} PolicyHas(policies: seq<Member>, key: string)
    ensures Has(PolicyWrites(policies), key) <==>
      exists m :: m in policies && key == "source_policies/" + m.key + ".yaml"
  {
    var w := PolicyWrites(policies);
    if i :| 0 <= i < |w| && w[i].key == key {
      assert policies[i] in policies && key == "source_policies/" + policies[i].key + ".yaml";
    }
    if m :| m in policies && key == "source_policies/" + m.key + ".yaml" {
      var i :| 0 <= i < |policies| && policies[i] == m;
      assert w[i].key == key;
    }
  }

  lemma {:induction false} FixedFiled(l: Loaded)
    ensures var w := FixedWrites(l);
      && |w| == 5
      && Member("campaign.yaml", l.campaign) in w
      && Member("entity_kinds.yaml", l.entityKinds) in w
      && Member("taxonomy.yaml", l.taxonomy) in w
      && Member("attributes.yaml", l.attributes) in w
      && Member("source_bindings.yaml", l.sourceBindings) in w
  {
    var w := FixedWrites(l);
    assert w[0] == Member("campaign.yaml", l.campaign) && w[1] == Member("entity_kinds.yaml", l.entityKinds)
        && w[2] == Member("taxonomy.yaml", l.taxonomy) && w[3] == Member("attributes.yaml", l.attributes)
        && w[4] == Member("source_bindings.yaml", l.sourceBindings);
  }

  lemma {:induction false} GeographyFiled(g: Option<Geography>)
    ensures |GeographyWrites(g)| == GeographySize(g)
    ensures g.Some? ==> Member("geography.yaml", g.value.document) in GeographyWrites(g)
    ensures g.Some? ==> forall m :: m in g.value.artifacts ==> m in GeographyWrites(g)
  {
    if g.Some? {
      assert GeographyWrites(g)[0] == Member("geography.yaml", g.value.document);
    }
  }

  lemma {:induction false} PoliciesFiled(policies: seq<Member>)
    ensures forall m :: m in policies ==>
      Member("source_policies/" + m.key + ".yaml", m.value) in PolicyWrites(policies)
  {
    var w := PolicyWrites(policies);
    forall m | m in policies ensures Member("source_policies/" + m.key + ".yaml", m.value) in w {
      var i :| 0 <= i < |policies| && policies[i] == m;
      assert w[i] == Member("source_policies/" + m.key + ".yaml", m.value);
    }
  }

  /** Without a shared path, every document of the campaign is found under its path. */
  lemma {:induction false} EveryDocumentFiled(l: Loaded)
    ensures PathsOk(l) && SeedsApart(l) ==> Filed(l, Dict(Writes(l)))
  {
    if PathsOk(l) && SeedsApart(l) {
      SeedsApartIsDistinct(l);
      DictOfDistinct(Writes(l));
      FixedFiled(l);
      GeographyFiled(l.geography);
      PoliciesFiled(l.policies);
    }
  }

  /** What the dumps give: every document is an object, the rows of a seed file are a list. */
  ghost predicate Kinds(l: Loaded) {
    && l.campaign.Obj? && l.entityKinds.Obj? && l.taxonomy.Obj? && l.attributes.Obj? && l.sourceBindings.Obj?
    && (l.geography.Some? ==>
        l.geography.value.document.Obj? && forall m :: m in l.geography.value.artifacts ==> m.value.Obj?)
    && (forall m :: m in l.policies ==> m.value.Obj?)
    && (forall m :: m in l.seeds ==> m.value.Arr?)
  }

  /** No member of the one list is, under the same key, the same data as a member of the other. */
  ghost predicate Separate(a: seq<Member>, b: seq<Member>) {
    forall x, y :: x in a && y in b ==> x.key != y.key || !Same(x.value, y.value)
  }

  ghost predicate Matched(x: Member, b: seq<Member>) {
    exists y :: y in b && x.key == y.key && Same(x.value, y.value)
  }

  ghost predicate Named(key: string, a: seq<Member>) {
    exists x :: x in a && x.key == key
  }

  /** The same keys with the same data. */
  ghost predicate SameMap(a: seq<Member>, b: seq<Member>) {
    (forall x :: x in a ==> Matched(x, b)) && (forall y :: y in b ==> Named(y.key, a))
  }

  lemma {:induction false} MatchedIs(x: Member, b: seq<Member>)
    ensures Matched(x, b) <==> HasSame(x, b)
  {
    if y :| y in b && x.key == y.key && Same(x.value, y.value) {
      var j :| 0 <= j < |b| && b[j] == y;
    }
    if j :| 0 <= j < |b| && x.key == b[j].key && Same(x.value, b[j].value) {
      assert b[j] in b;
    }
  }

  lemma {:induction false} NamedIs(key: string, a: seq<Member>)
    ensures Named(key, a) <==> HasKey(key, a)
  {
    if x :| x in a && x.key == key {
      var i :| 0 <= i < |a| && a[i] == x;
    }
    if i :| 0 <= i < |a| && a[i].key == key {
      assert a[i] in a;
    }
  }

  lemma {:induction false} SameMapIs(a: seq<Member>, b: seq<Member>)
    ensures SameMap(a, b) <==> Same(Obj(a), Obj(b))
  {
    forall x ensures Matched(x, b) <==> HasSame(x, b) {
      MatchedIs(x, b);
    }
    forall key ensures Named(key, a) <==> HasKey(key, a) {
      NamedIs(key, a);
    }
    if Same(Obj(a), Obj(b)) {
      forall x | x in a ensures HasSame(x, b) {
        var i :| 0 <= i < |a| && a[i] == x;
      }
      forall y | y in b ensures HasKey(y.key, a) {
        var j :| 0 <= j < |b| && b[j] == y;
      }
    }
    if SameMap(a, b) {
      forall i | 0 <= i < |a| ensures HasSame(a[i], b) {
        assert a[i] in a;
      }
      forall j | 0 <= j < |b| ensures HasKey(b[j].key, a) {
        assert b[j] in b;
      }
    }
  }

  lemma {:induction false} UniqueIn(d: seq<Member>)
    requires UniqueKeys(d)
    ensures forall x, y :: x in d && y in d && x.key == y.key ==> x == y
  {
  }

  /** Two dictionaries in two parts that cannot be mistaken for each other agree exactly part by part. */
  lemma {:induction false} SameInParts(a: seq<Member>, a': seq<Member>, b: seq<Member>, b': seq<Member>)
    requires UniqueKeys(b + b') && Separate(a, b') && Separate(a', b)
    ensures SameMap(a + a', b + b') <==> SameMap(a, b) && SameMap(a', b')
  {
    if SameMap(a + a', b + b') {
      UniqueIn(b + b');
      PartAgrees(a, a', b, b', a + a', b + b');
      PartAgrees(a', a, b', b, a + a', b + b');
    }
    if SameMap(a, b) && SameMap(a', b') {
      PartsAgree(a, a', b, b');
    }
  }

  lemma {:induction false} PartsAgree(a: seq<Member>, a': seq<Member>, b: seq<Member>, b': seq<Member>)
    requires SameMap(a, b) && SameMap(a', b')
    ensures SameMap(a + a', b + b')
  {
    forall x | x in a + a' ensures Matched(x, b + b') {
      if x in a {
        assert Matched(x, b);
        var y :| y in b && x.key == y.key && Same(x.value, y.value);
        assert y in b + b';
      } else {
        assert Matched(x, b');
        var y :| y in b' && x.key == y.key && Same(x.value, y.value);
        assert y in b + b';
      }
    }
    forall y | y in b + b' ensures Named(y.key, a + a') {
      if y in b {
        assert Named(y.key, a);
        var x :| x in a && x.key == y.key;
        assert x in a + a';
      } else {
        assert Named(y.key, a');
        var x :| x in a' && x.key == y.key;
        assert x in a + a';
      }
    }
  }

  lemma {:induction false} PartAgrees(
    a: seq<Member>, a': seq<Member>, b: seq<Member>, b': seq<Member>, whole: seq<Member>, whole': seq<Member>)
    requires (forall x :: x in whole <==> x in a || x in a') && (forall y :: y in whole' <==> y in b || y in b')
    requires forall x, y :: x in whole' && y in whole' && x.key == y.key ==> x == y
    requires Separate(a, b') && Separate(a', b) && SameMap(whole, whole')
    ensures SameMap(a, b)
  {
    forall x | x in a ensures Matched(x, b) {
      assert x in whole;
      assert Matched(x, whole');
      var y :| y in whole' && x.key == y.key && Same(x.value, y.value);
      assert y !in b';
    }
    forall y | y in b ensures Named(y.key, a) {
      assert y in whole';
      assert Named(y.key, whole);
      var x :| x in whole && x.key == y.key;
      assert Matched(x, whole');
      var z :| z in whole' && x.key == z.key && Same(x.value, z.value);
      assert z == y && x !in a';
    }
  }

  lemma {:induction false} KindsSeparate(a: seq<Member>, b: seq<Member>)
    requires (forall m :: m in a ==> m.value.Obj?) && (forall m :: m in b ==> m.value.Arr?)
    ensures Separate(a, b) && Separate(b, a)
  {
  }

  lemma {:induction false} KeysSeparate(a: seq<Member>, b: seq<Member>)
    requires forall x, y :: x in a && y in b ==> x.key != y.key
    ensures Separate(a, b) && Separate(b, a)
  {
  }

  lemma {:induction false} EighthSeparate(a: seq<Member>, x: set<char>, b: seq<Member>, y: set<char>)
    requires Eighth(a, x) && Eighth(b, y) && x !! y
    ensures Separate(a, b)
  {
    forall m, n | m in a && n in b ensures m.key != n.key {
      assert m.key[7] in x && n.key[7] in y;
    }
  }

  /** Each field is the same data: what the digest of a campaign stands for. */
  ghost predicate SameCampaign(a: Loaded, b: Loaded) {
    && Same(a.campaign, b.campaign) && Same(a.entityKinds, b.entityKinds) && Same(a.taxonomy, b.taxonomy)
    && Same(a.attributes, b.attributes) && Same(a.sourceBindings, b.sourceBindings)
    && SameGeography(a.geography, b.geography)
    && Same(Obj(a.policies), Obj(b.policies)) && Same(Obj(a.seeds), Obj(b.seeds))
  }

  ghost predicate SameGeography(g: Option<Geography>, h: Option<Geography>) {
    && (g.Some? <==> h.Some?)
    && (g.Some? ==>
        Same(g.value.document, h.value.document) && Same(Obj(g.value.artifacts), Obj(h.value.artifacts)))
  }

  lemma {:induction false} SameFixed(a: Loaded, b: Loaded)
    ensures Same(Obj(FixedWrites(a)), Obj(FixedWrites(b))) <==>
      && Same(a.campaign, b.campaign) && Same(a.entityKinds, b.entityKinds) && Same(a.taxonomy, b.taxonomy)
      && Same(a.attributes, b.attributes) && Same(a.sourceBindings, b.sourceBindings)
  {
    var u, w := FixedWrites(a), FixedWrites(b);
    FixedDistinct(b);
    FixedEntries(a);
    FixedEntries(b);
    CanonicalBundles.SameAligned(u, w);
    if Same(Obj(u), Obj(w)) {
      assert Same(u[0].value, w[0].value) && Same(u[1].value, w[1].value) && Same(u[2].value, w[2].value)
          && Same(u[3].value, w[3].value) && Same(u[4].value, w[4].value);
    }
  }

  lemma {:induction false} FixedEntries(l: Loaded)
    ensures var w := FixedWrites(l);
      && |w| == 5
      && w[0] == Member("campaign.yaml", l.campaign) && w[1] == Member("entity_kinds.yaml", l.entityKinds)
      && w[2] == Member("taxonomy.yaml", l.taxonomy) && w[3] == Member("attributes.yaml", l.attributes)
      && w[4] == Member("source_bindings.yaml", l.sourceBindings)
  {
  }

  lemma {:induction false} SameSingle(m: Member, n: Member)
    requires m.key == n.key
    ensures SameMap([m], [n]) <==> Same(m.value, n.value)
  {
    if SameMap([m], [n]) {
      assert m in [m];
      assert Matched(m, [n]);
    }
    if Same(m.value, n.value) {
      assert n in [n] && m in [m];
      assert Matched(m, [n]) && Named(n.key, [m]);
    }
  }

  lemma {:induction false} SameGeographyWrites(a: Option<Geography>, b: Option<Geography>)
    requires UniqueKeys(GeographyWrites(b))
    requires a.Some? ==> ArtifactsOk(a.value.artifacts)
    requires b.Some? ==> ArtifactsOk(b.value.artifacts)
    ensures SameMap(GeographyWrites(a), GeographyWrites(b)) <==> SameGeography(a, b)
  {
    if a.Some? && b.Some? {
      var m, n := Member("geography.yaml", a.value.document), Member("geography.yaml", b.value.document);
      ArtifactPaths(a.value.artifacts);
      ArtifactPaths(b.value.artifacts);
      KeysSeparate([m], b.value.artifacts);
      KeysSeparate([n], a.value.artifacts);
      SameInParts([m], a.value.artifacts, [n], b.value.artifacts);
      SameSingle(m, n);
      SameMapIs(a.value.artifacts, b.value.artifacts);
    } else if a.Some? {
      assert Member("geography.yaml", a.value.document) in GeographyWrites(a);
      assert !Matched(Member("geography.yaml", a.value.document), []);
    } else if b.Some? {
      assert Member("geography.yaml", b.value.document) in GeographyWrites(b);
      assert !Named("geography.yaml", []);
    }
  }

  lemma {:induction false} ArtifactPaths(artifacts: seq<Member>)
    requires ArtifactsOk(artifacts)
    ensures forall m :: m in artifacts ==> m.key != "geography.yaml"
  {
    assert "geography/"[9] == '/' && "geography.yaml"[9] == '.';
  }

  lemma {:induction false} SamePolicyWrites(a: seq<Member>, b: seq<Member>)
    ensures SameMap(PolicyWrites(a), PolicyWrites(b)) <==> SameMap(a, b)
  {
    forall i | 0 <= i < |a| ensures Matched(a[i], b) <==> Matched(PolicyWrites(a)[i], PolicyWrites(b)) {
      PolicyMatched(a[i], b);
    }
    forall j | 0 <= j < |b| ensures Named(b[j].key, a) <==> Named(PolicyWrites(b)[j].key, PolicyWrites(a)) {
      PolicyNamed(b[j].key, a);
    }
    SameMapAt(a, b);
    SameMapAt(PolicyWrites(a), PolicyWrites(b));
  }

  /** `SameMap` by positions. */
  lemma {:induction false} SameMapAt(a: seq<Member>, b: seq<Member>)
    ensures SameMap(a, b) <==>
      && (forall i :: 0 <= i < |a| ==> Matched(a[i], b))
      && (forall j :: 0 <= j < |b| ==> Named(b[j].key, a))
  {
  }

  lemma {:induction false} PolicyMatched(x: Member, b: seq<Member>)
    ensures Matched(x, b) <==> Matched(PolicyWrite(x), PolicyWrites(b))
  {
    var w := PolicyWrites(b);
    if y :| y in b && x.key == y.key && Same(x.value, y.value) {
      var j :| 0 <= j < |b| && b[j] == y;
      assert w[j] in w;
    }
    if y :| y in w && PolicyWrite(x).key == y.key && Same(x.value, y.value) {
      var j :| 0 <= j < |w| && w[j] == y;
      Sandwich("source_policies/", x.key, b[j].key, ".yaml");
      assert b[j] in b;
    }
  }

  lemma {:induction false} PolicyNamed(key: string, a: seq<Member>)
    ensures Named(key, a) <==> Named("source_policies/" + key + ".yaml", PolicyWrites(a))
  {
    var u := PolicyWrites(a);
    if x :| x in a && x.key == key {
      var i :| 0 <= i < |a| && a[i] == x;
      assert u[i] in u;
    }
    if x :| x in u && x.key == "source_policies/" + key + ".yaml" {
      var i :| 0 <= i < |u| && u[i] == x;
      Sandwich("source_policies/", key, a[i].key, ".yaml");
      assert a[i] in a;
    }
  }

  lemma {:induction false} OwnKinds(l: Loaded)
    requires Kinds(l)
    ensures forall m :: m in OwnDocuments(l) ==> m.value.Obj?
  {
    FixedEntries(l);
    var w := FixedWrites(l);
    forall m | m in w ensures m.value.Obj? {
      var i :| 0 <= i < |w| && w[i] == m;
    }
    var p := PolicyWrites(l.policies);
    forall m | m in p ensures m.value.Obj? {
      var i :| 0 <= i < |p| && p[i] == m;
      assert l.policies[i] in l.policies;
    }
  }

  /** The documents of two campaigns are the same data under the same paths exactly field by field. */
  lemma {:induction false} SameWrites(a: Loaded, b: Loaded)
    requires PathsOk(a) && PathsOk(b) && Kinds(a) && Kinds(b) && UniqueKeys(Writes(b))
    ensures Same(Obj(Writes(a)), Obj(Writes(b))) <==> SameCampaign(a, b)
  {
    OwnKinds(a);
    OwnKinds(b);
    SameWithSeeds(OwnDocuments(a), a.seeds, OwnDocuments(b), b.seeds);
    UniquePrefix(OwnDocuments(b), b.seeds);
    SameOwn(a, b);
    SameFixed(a, b);
  }

  lemma {:induction false} SameWithSeeds(a: seq<Member>, seeds: seq<Member>, b: seq<Member>, seeds': seq<Member>)
    requires (forall m :: m in a + b ==> m.value.Obj?) && (forall m :: m in seeds + seeds' ==> m.value.Arr?)
    requires UniqueKeys(b + seeds')
    ensures Same(Obj(a + seeds), Obj(b + seeds')) <==> SameMap(a, b) && Same(Obj(seeds), Obj(seeds'))
  {
    KindsSeparate(a, seeds');
    KindsSeparate(b, seeds);
    SameInParts(a, seeds, b, seeds');
    SameMapIs(a + seeds, b + seeds');
    SameMapIs(seeds, seeds');
  }

  lemma {:induction false} UniquePrefix(a: seq<Member>, b: seq<Member>)
    requires UniqueKeys(a + b)
    ensures UniqueKeys(a) && UniqueKeys(b)
  {
    forall i, j | 0 <= i < j < |a| ensures a[i].key != a[j].key {
      assert (a + b)[i].key != (a + b)[j].key;
    }
    forall i, j | 0 <= i < j < |b| ensures b[i].key != b[j].key {
      assert (a + b)[|a| + i].key != (a + b)[|a| + j].key;
    }
  }

  lemma {:induction false} SameOwn(a: Loaded, b: Loaded)
    requires PathsOk(a) && PathsOk(b) && UniqueKeys(OwnDocuments(b))
    ensures SameMap(OwnDocuments(a), OwnDocuments(b)) <==>
      && Same(Obj(FixedWrites(a)), Obj(FixedWrites(b))) && SameGeography(a.geography, b.geography)
      && Same(Obj(a.policies), Obj(b.policies))
  {
    var fa, ga, pa := FixedWrites(a), GeographyWrites(a.geography), PolicyWrites(a.policies);
    var fb, gb, pb := FixedWrites(b), GeographyWrites(b.geography), PolicyWrites(b.policies);
    Letters(a);
    Letters(b);
    UniquePrefix(fb + gb, pb);
    UniquePrefix(fb, gb);
    EighthConcat(fa, {'n', 'k', 'y', 't', 'b'}, ga, {'h'});
    EighthConcat(fb, {'n', 'k', 'y', 't', 'b'}, gb, {'h'});
    EighthSeparate(fa + ga, {'n', 'k', 'y', 't', 'b'} + {'h'}, pb, {'p'});
    EighthSeparate(pa, {'p'}, fb + gb, {'n', 'k', 'y', 't', 'b'} + {'h'});
    SameInParts(fa + ga, pa, fb + gb, pb);
    EighthSeparate(fa, {'n', 'k', 'y', 't', 'b'}, gb, {'h'});
    EighthSeparate(ga, {'h'}, fb, {'n', 'k', 'y', 't', 'b'});
    SameInParts(fa, ga, fb, gb);
    SameMapIs(fa, fb);
    SameGeographyWrites(a.geography, b.geography);
    SamePolicyWrites(a.policies, b.policies);
    SameMapIs(a.policies, b.policies);
  }

  lemma {:induction false} EighthConcat(a: seq<Member>, x: set<char>, b: seq<Member>, y: set<char>)
    requires Eighth(a, x) && Eighth(b, y)
    ensures Eighth(a + b, x + y)
  {
  }

  lemma {:induction false} Letters(l: Loaded)
    requires PathsOk(l)
    ensures Eighth(FixedWrites(l), {'n', 'k', 'y', 't', 'b'}) && Eighth(GeographyWrites(l.geography), {'h'})
    ensures Eighth(PolicyWrites(l.policies), {'p'})
  {
    FixedEighth(l);
    GeographyEighth(l);
    PolicyEighth(l.policies);
  }

  /** Two campaigns without shared paths have the same digest exactly when they have the same key and each
      of their fields is the same data: campaign, entity kinds, taxonomy, attributes, source bindings,
      geography with its artifacts, policies and seeds. */
  lemma {:induction false} DigestIdentifiesDocuments(
    k: string, a: Loaded, l: string, b: Loaded, sha: seq<Byte> -> string)
    requires AllWellFormed(Writes(a)) && AllWellFormed(Writes(b)) && Injective(sha)
    requires PathsOk(a) && PathsOk(b) && SeedsApart(a) && SeedsApart(b) && Kinds(a) && Kinds(b)
    ensures StoredDigest(k, Writes(a), sha) == StoredDigest(l, Writes(b), sha) <==> k == l && SameCampaign(a, b)
  {
    SeedsApartIsDistinct(a);
    SeedsApartIsDistinct(b);
    DistinctWritesIdentify(k, Writes(a), l, Writes(b), sha);
    SameWrites(a, b);
  }
}
