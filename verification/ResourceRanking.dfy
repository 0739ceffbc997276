/**
  Which of the links found in a response become discovered resources
  (connectors/official_http/src/official_http/planning.py).

  Link extraction and the Unicode tables are inputs; scoring, ranking and the choice of the
  best resources are modelled.
 */
module ResourceRanking {
  import opened Text
  import opened Pieces

  datatype Kind = Sitemap | Page

  datatype Rule = Rule(key: string, tokens: seq<string>, priority: nat)

  datatype Resource = Resource(url: string, kind: Kind, interest: Option<string>, score: nat)

  // ------------------------------------------------------------ interest score

  /** `any(token in searchable for token in rule.tokens)`. */
  predicate Hits(rule: Rule, searchable: string) {
    exists i :: 0 <= i < |rule.tokens| && Contains(searchable, rule.tokens[i])
  }

  /** One of the rule's tokens stands somewhere in the text. */
  ghost predicate Mentions(rule: Rule, text: string) {
    exists token :: token in rule.tokens && Inside(token, text)
  }

  ghost predicate Inside(token: string, text: string) {
    exists i :: StandsAt(token, text, i)
  }

  ghost predicate StandsAt(token: string, text: string, i: int) {
    0 <= i <= |text| - |token| && text[i..i + |token|] == token
  }

  lemma {:induction false} StandsLater(token: string, text: string, i: int)
    requires text != []
    ensures StandsAt(token, text, i + 1) && i >= 0 <==> StandsAt(token, text[1..], i)
  {
    if 0 <= i <= |text| - 1 - |token| {
      assert text[1..][i..i + |token|] == text[i + 1..i + 1 + |token|];
    }
  }

  lemma {:induction false} ContainsInside(text: string, token: string)
    ensures Contains(text, token) <==> Inside(token, text)
  {
    assert token <= text <==> StandsAt(token, text, 0);
    if text != [] {
      ContainsInside(text[1..], token);
      forall i ensures StandsAt(token, text, i + 1) && i >= 0 <==> StandsAt(token, text[1..], i) {
        StandsLater(token, text, i);
      }
      if Inside(token, text) && !(token <= text) {
        var i :| StandsAt(token, text, i);
        assert StandsAt(token, text[1..], i - 1);
      }
    }
  }

  lemma {:induction false} HitsMentions(rule: Rule, text: string)
    ensures Hits(rule, text) <==> Mentions(rule, text)
  {
    forall i | 0 <= i < |rule.tokens| ensures Contains(text, rule.tokens[i]) <==> Inside(rule.tokens[i], text) {
      ContainsInside(text, rule.tokens[i]);
    }
  }

  function Matches(rules: seq<Rule>, searchable: string): (r: seq<Rule>)
    ensures forall x :: x in r <==> x in rules && Hits(x, searchable)
  {
    if rules == [] then []
    else (if Hits(rules[0], searchable) then [rules[0]] else []) + Matches(rules[1..], searchable)
  }

  /** Order of `matches.sort(key=(-priority, key))`. */
  predicate RuleLe(a: Rule, b: Rule) {
    a.priority > b.priority || (a.priority == b.priority && StrLe(a.key, b.key))
  }

  lemma {:induction false} RuleLeOrder()
    ensures TotalPreorder(RuleLe)
  {
    StrLeTotalOrder();
    forall x, y ensures RuleLe(x, y) || RuleLe(y, x) {
      assert StrLe(x.key, y.key) || StrLe(y.key, x.key);
    }
    forall x, y, z | RuleLe(x, y) && RuleLe(y, z) ensures RuleLe(x, z) {
      if x.priority == y.priority == z.priority {
        assert StrLe(x.key, y.key) && StrLe(y.key, z.key);
      }
    }
  }

  /** `_interest_score`: the score and key of the best matching rule, or nothing. */
  function Interest(rules: seq<Rule>, searchable: string): (nat, Option<string>) {
    var matches := Matches(rules, searchable);
    if matches == [] then (0, None)
    else
      var best := Sort(matches, RuleLe)[0];
      (best.priority, Some(best.key))
  }

  /** The score is zero exactly when no rule matches; otherwise it belongs to a matching rule, no
      matching rule has a higher priority, and among equals the key is the least. */
  ghost predicate Best(rules: seq<Rule>, searchable: string, score: nat, key: Option<string>) {
    && (score == 0 <==> key == None)
    && (score == 0 <==> forall x :: x in rules ==> !Mentions(x, searchable))
    && (key.Some? ==> exists x :: x in rules && Mentions(x, searchable) && x.priority == score && x.key == key.value)
    && (forall x :: x in rules && Mentions(x, searchable) ==>
          x.priority < score || (x.priority == score && key.Some? && StrLe(key.value, x.key)))
  }

  lemma {:induction false} InterestIsBest(rules: seq<Rule>, searchable: string)
    requires forall x :: x in rules ==> x.priority >= 1
    ensures Best(rules, searchable, Interest(rules, searchable).0, Interest(rules, searchable).1)
  {
    forall x: Rule ensures Hits(x, searchable) <==> Mentions(x, searchable) {
      HitsMentions(x, searchable);
    }
    var matches := Matches(rules, searchable);
    if matches == [] {
      forall x | x in rules ensures !Hits(x, searchable) {
        assert x !in matches;
      }
    } else {
      RuleLeOrder();
      SortSorts(matches, RuleLe);
      var sorted := Sort(matches, RuleLe);
      SameElements(sorted, matches);
      assert sorted[0] in sorted;
      forall x | x in rules && Hits(x, searchable) ensures x == sorted[0] || RuleLe(sorted[0], x) {
        assert x in matches && x in sorted;
        var i :| 0 <= i < |sorted| && sorted[i] == x;
      }
    }
  }

  // ------------------------------------------------------------------ ranking

  /** The resource a URL becomes. */
  function Item(url: string, kind: Kind, rules: seq<Rule>, searchable: string -> string): Resource {
    var (score, key) := Interest(rules, searchable(url));
    Resource(url, kind, key, score)
  }

  /** Pages need a matching interest; sitemaps do not. */
  predicate Wanted(r: Resource) {
    r.kind == Sitemap || r.score != 0
  }

  /** The key (-score, url) of the final order. */
  predicate RankLe(a: Resource, b: Resource) {
    a.score > b.score || (a.score == b.score && StrLe(a.url, b.url))
  }

  lemma {:induction false} RankLeOrder()
    ensures TotalPreorder(RankLe)
  {
    StrLeTotalOrder();
    forall x, y ensures RankLe(x, y) || RankLe(y, x) {
      assert StrLe(x.url, y.url) || StrLe(y.url, x.url);
    }
    forall x, y, z | RankLe(x, y) && RankLe(y, z) ensures RankLe(x, z) {
      if x.score == y.score == z.score {
        assert StrLe(x.url, y.url) && StrLe(y.url, z.url);
      }
    }
  }

  ghost predicate UniqueUrls(rs: seq<Resource>) {
    forall i, j :: 0 <= i < j < |rs| ==> rs[i].url != rs[j].url
  }

  /** The items collected from a prefix of the links: one per wanted URL. */
  ghost predicate Collected(items: seq<Resource>, urls: seq<string>, itemOf: string -> Resource) {
    && UniqueUrls(items)
    && (forall r :: r in items ==> r.url in urls && r == itemOf(r.url) && Wanted(r))
    && (forall u :: u in urls && Wanted(itemOf(u)) ==> itemOf(u) in items)
  }

  ghost predicate NamesItself(itemOf: string -> Resource) {
    forall u :: itemOf(u).url == u
  }

  lemma {:induction false} CollectSkip(items: seq<Resource>, urls: seq<string>, u: string, itemOf: string -> Resource)
    requires Collected(items, urls, itemOf) && (Wanted(itemOf(u)) ==> itemOf(u) in items)
    ensures Collected(items, urls + [u], itemOf)
  {
  }

  lemma {:induction false} CollectNew(items: seq<Resource>, urls: seq<string>, u: string, itemOf: string -> Resource)
    requires NamesItself(itemOf) && Collected(items, urls, itemOf) && Wanted(itemOf(u))
    requires forall r :: r in items ==> r.url != u
    ensures Collected(items + [itemOf(u)], urls + [u], itemOf)
  {
    var more := items + [itemOf(u)];
    forall i, j | 0 <= i < j < |more| ensures more[i].url != more[j].url {
      assert more[i] in items;
    }
  }

  /** A ranking: the best `limit` of the wanted items, best first. */
  ghost predicate TopOf(ranked: seq<Resource>, urls: seq<string>, itemOf: string -> Resource, limit: nat) {
    && Sorted(ranked, RankLe) && UniqueUrls(ranked)
    && |ranked| <= limit
    && (forall r :: r in ranked ==> r.url in urls && r == itemOf(r.url) && (r.kind == Page ==> r.score > 0))
    && (forall u :: u in urls && (itemOf(u).kind == Page ==> itemOf(u).score > 0) && itemOf(u) !in ranked ==>
          |ranked| == limit && forall r :: r in ranked ==> RankLe(r, itemOf(u)))
  }

  /** `by_url` as a dictionary: its keys in insertion order. */
  ghost predicate Dictionary(keys: seq<string>, byUrl: map<string, Resource>, items: seq<Resource>) {
    && |keys| == |items|
    && (forall k :: k in keys <==> k in byUrl)
    && (forall i :: 0 <= i < |keys| ==> keys[i] in byUrl && byUrl[keys[i]] == items[i] && items[i].url == keys[i])
  }

  lemma {:induction false} ResourcesOf(keys: seq<string>, byUrl: map<string, Resource>, items: seq<Resource>)
    requires Dictionary(keys, byUrl, items)
    ensures Values(keys, byUrl) == items
  {
  }

  function Values(keys: seq<string>, byUrl: map<string, Resource>): (r: seq<Resource>)
    requires forall i :: 0 <= i < |keys| ==> keys[i] in byUrl
    ensures |r| == |keys| && forall i :: 0 <= i < |keys| ==> r[i] == byUrl[keys[i]]
  {
    if keys == [] then [] else [byUrl[keys[0]]] + Values(keys[1..], byUrl)
  }

  /** `_rank_resources`: a true top-k of the wanted links, each once. */
  method Rank(urls: seq<string>, itemOf: string -> Resource, limit: nat) returns (ranked: seq<Resource>)
    requires NamesItself(itemOf)
    ensures TopOf(ranked, urls, itemOf, limit)
  {
    var keys: seq<string> := [];
    var byUrl: map<string, Resource> := map[];
    ghost var items: seq<Resource> := [];
    for i := 0 to |urls|
      invariant Dictionary(keys, byUrl, items)
      invariant Collected(items, urls[..i], itemOf)
    {
      var url := urls[i];
      assert urls[..i + 1] == urls[..i] + [url];
      var item := itemOf(url);
      if item.kind == Page && item.score == 0 {
        CollectSkip(items, urls[..i], url, itemOf);
        continue;
      }
      if url !in byUrl {
        NotYet(keys, byUrl, items, url);
        CollectNew(items, urls[..i], url, itemOf);
        DictionaryNew(keys, byUrl, items, item);
        keys := keys + [url];
        byUrl := byUrl[url := item];
        items := items + [item];
      } else {
        Known(keys, byUrl, items, url);
        assert byUrl[url] == item;
        CollectSkip(items, urls[..i], url, itemOf);
        if item.score > byUrl[url].score {
          assert false;
          byUrl := byUrl[url := item];
        }
      }
    }
    assert urls[..|urls|] == urls;
    ResourcesOf(keys, byUrl, items);
    var ordered := Sort(Values(keys, byUrl), RankLe);
    ranked := First(ordered, limit);
    BestOfSorted(items, ordered, urls, itemOf, limit);
  }

  lemma {:induction false} NotYet(keys: seq<string>, byUrl: map<string, Resource>, items: seq<Resource>, url: string)
    requires Dictionary(keys, byUrl, items) && url !in byUrl
    ensures forall r :: r in items ==> r.url != url
  {
    forall r | r in items ensures r.url != url {
      var i :| 0 <= i < |items| && items[i] == r;
      assert keys[i] in byUrl;
    }
  }

  lemma {:induction false} Known(keys: seq<string>, byUrl: map<string, Resource>, items: seq<Resource>, url: string)
    requires Dictionary(keys, byUrl, items) && url in byUrl
    ensures byUrl[url] in items && byUrl[url].url == url
  {
    assert url in keys;
    var i :| 0 <= i < |keys| && keys[i] == url;
  }

  lemma {:induction false} DictionaryNew(
    keys: seq<string>, byUrl: map<string, Resource>, items: seq<Resource>, item: Resource)
    requires Dictionary(keys, byUrl, items) && item.url !in byUrl
    ensures Dictionary(keys + [item.url], byUrl[item.url := item], items + [item])
  {
    forall i | 0 <= i < |keys| ensures keys[i] != item.url {
      assert keys[i] in byUrl;
    }
  }

  lemma {:induction false} UniqueUrlsKept(a: seq<Resource>, b: seq<Resource>)
    requires UniqueUrls(a) && multiset(a) == multiset(b)
    ensures UniqueUrls(b)
  {
    SameElements(a, b);
    assert Distinct(a);
    DistinctKept(a, b);
    forall i, j | 0 <= i < j < |b| ensures b[i].url != b[j].url {
      assert b[i] in a && b[j] in a;
      var k :| 0 <= k < |a| && a[k] == b[i];
      var l :| 0 <= l < |a| && a[l] == b[j];
      assert b[i] != b[j] && k != l;
    }
  }

  lemma {:induction false} Once<T>(a: seq<T>, k: nat)
    requires Distinct(a) && k < |a|
    ensures multiset(a)[a[k]] == 1
  {
    var x := a[k];
    assert a == a[..k] + [x] + a[k + 1..];
    assert x !in a[..k] && x !in a[k + 1..];
  }

  lemma {:induction false} Twice<T>(b: seq<T>, i: nat, j: nat)
    requires i < j < |b| && b[i] == b[j]
    ensures multiset(b)[b[i]] >= 2
  {
    assert b == b[..i] + [b[i]] + b[i + 1..];
    assert b[i + 1..][j - i - 1] == b[j];
  }

  lemma {:induction false} DistinctKept<T>(a: seq<T>, b: seq<T>)
    requires Distinct(a) && multiset(a) == multiset(b)
    ensures Distinct(b)
  {
    forall i, j | 0 <= i < j < |b| ensures b[i] != b[j] {
      if b[i] == b[j] {
        Twice(b, i, j);
        assert b[i] in multiset(a);
        var k :| 0 <= k < |a| && a[k] == b[i];
        Once(a, k);
      }
    }
  }

  function First(ordered: seq<Resource>, limit: nat): (r: seq<Resource>)
    ensures r <= ordered && |r| <= limit && (|r| < |ordered| ==> |r| == limit)
  {
    if |ordered| <= limit then ordered else ordered[..limit]
  }

  lemma {:induction false} BeyondFirst(ordered: seq<Resource>, limit: nat, x: Resource)
    requires Sorted(ordered, RankLe) && x in ordered && x !in First(ordered, limit)
    ensures |First(ordered, limit)| == limit
    ensures forall r :: r in First(ordered, limit) ==> RankLe(r, x)
  {
    var ranked := First(ordered, limit);
    var j :| 0 <= j < |ordered| && ordered[j] == x;
    assert j >= |ranked|;
    forall r | r in ranked ensures RankLe(r, x) {
      var i :| 0 <= i < |ranked| && ranked[i] == r;
    }
  }

  lemma {:induction false} BestOfSorted(
    items: seq<Resource>, ordered: seq<Resource>, urls: seq<string>, itemOf: string -> Resource, limit: nat)
    requires Collected(items, urls, itemOf) && ordered == Sort(items, RankLe)
    ensures TopOf(First(ordered, limit), urls, itemOf, limit)
  {
    RankLeOrder();
    SortSorts(items, RankLe);
    SameElements(ordered, items);
    UniqueUrlsKept(items, ordered);
    var ranked := First(ordered, limit);
    forall r | r in ranked ensures r in items {
      assert r in ordered;
    }
    forall u | u in urls && Wanted(itemOf(u)) && itemOf(u) !in ranked
      ensures |ranked| == limit && forall r :: r in ranked ==> RankLe(r, itemOf(u))
    {
      assert itemOf(u) in items && itemOf(u) in ordered;
      BeyondFirst(ordered, limit, itemOf(u));
    }
  }

  // ------------------------------------------------------------- sorted sets

  /** `sorted(set(names))`. */
  function SortedSet(names: seq<string>): seq<string> {
    Sort(Dedup(names), StrLe)
  }

  function Dedup(names: seq<string>): (r: seq<string>)
    ensures forall x :: x in r <==> x in names
  {
    if names == [] then []
    else
      var rest := Dedup(names[1..]);
      if names[0] in rest then rest else [names[0]] + rest
  }

  ghost predicate Strict(names: seq<string>) {
    forall i, j :: 0 <= i < j < |names| ==> StrLt(names[i], names[j])
  }

  lemma {:induction false} DedupDistinct(names: seq<string>)
    ensures Distinct(Dedup(names))
  {
    if names != [] {
      DedupDistinct(names[1..]);
    }
  }

  /** The sorted set of a list is strictly increasing and has the same elements; a list is its own
      sorted set exactly when it is strictly increasing. */
  lemma {:induction false} SortedSetFacts(names: seq<string>)
    ensures Strict(SortedSet(names))
    ensures forall x :: x in SortedSet(names) <==> x in names
    ensures Strict(names) <==> SortedSet(names) == names
  {
    StrLeTotalOrder();
    var d := Dedup(names);
    SortSorts(d, StrLe);
    SameElements(SortedSet(names), d);
    DedupDistinct(names);
    DistinctKept(d, SortedSet(names));
    if Strict(names) {
      StrictDedup(names);
      SortOfSorted(names, StrLe);
    }
  }

  lemma {:induction false} StrictDedup(names: seq<string>)
    requires Strict(names)
    ensures Dedup(names) == names
  {
    if names != [] {
      StrictDedup(names[1..]);
      StrLtIrreflexive(names[0]);
      forall i | 0 <= i < |names| - 1 ensures names[1..][i] != names[0] {
        assert StrLt(names[0], names[i + 1]);
      }
      assert names == [names[0]] + names[1..];
    }
  }
}
