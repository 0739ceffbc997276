/**
  The rewrite of campaign YAML once the Berlin boundary exists: `_update_yaml_value`
  (tools/live_collection/berlin_boundary.py).

  A tree is what `yaml.safe_load` returns; values that are neither text, bytes, list nor mapping
  are scalars.  Lower-casing of non-ASCII key text is an input.
 */
module YamlRewrite {
  import opened Text
  import opened Utf8
  import opened Pieces

  /** A mapping key; `shown` is `str(key)`, and only a text key equals a text. */
  datatype Key = Name(shown: string) | OtherKey(shown: string, tag: int)

  datatype Yaml =
    | Scalar(tag: int)
    | Text(text: string)
    | Bytes(bytes: seq<Byte>)
    | List(items: seq<Yaml>)
    | Mapping(entries: seq<Entry>)

  datatype Entry = Entry(key: Key, value: Yaml)

  datatype Config = Config(boundaryPath: string, digest: string, lower: string -> string)

  // ---------------------------------------------------------- dictionaries

  function Get(es: seq<Entry>, key: Key): Option<Yaml> {
    if es == [] then None else if es[0].key == key then Some(es[0].value) else Get(es[1..], key)
  }

  /** `result[key] = value`: in place, or at the end. */
  function Put(es: seq<Entry>, key: Key, value: Yaml): seq<Entry> {
    if es == [] then [Entry(key, value)]
    else if es[0].key == key then [Entry(key, value)] + es[1..]
    else [es[0]] + Put(es[1..], key, value)
  }

  function Drop(es: seq<Entry>, key: Key): seq<Entry> {
    if es == [] then [] else if es[0].key == key then Drop(es[1..], key) else [es[0]] + Drop(es[1..], key)
  }

  lemma {:induction false} GetPut(es: seq<Entry>, key: Key, value: Yaml, k: Key)
    ensures Get(Put(es, key, value), k) == if k == key then Some(value) else Get(es, k)
  {
    if es != [] && es[0].key != key {
      GetPut(es[1..], key, value, k);
    }
  }

  lemma {:induction false} GetDrop(es: seq<Entry>, key: Key, k: Key)
    ensures Get(Drop(es, key), k) == if k == key then None else Get(es, k)
  {
    if es != [] {
      GetDrop(es[1..], key, k);
      if es[0].key != key {
        assert ([es[0]] + Drop(es[1..], key))[1..] == Drop(es[1..], key);
      }
    }
  }

  lemma {:induction false} GetMember(es: seq<Entry>, key: Key)
    ensures Get(es, key).Some? ==> exists i :: 0 <= i < |es| && es[i] == Entry(key, Get(es, key).value)
  {
    if es != [] && es[0].key != key {
      GetMember(es[1..], key);
      if Get(es, key).Some? {
        var i :| 0 <= i < |es[1..]| && es[1..][i] == Entry(key, Get(es, key).value);
        assert es[i + 1] == es[1..][i];
      }
    } else if es != [] {
      assert es[0] == Entry(key, Get(es, key).value);
    }
  }

  // ----------------------------------------------------------------- rewrite

  const CODE := Name("code")
  const READINESS := Name("readiness")
  const BLOCKERS := Name("blockers")
  const STATE := Name("state")

  /** A blocker entry about the missing boundary. */
  predicate Missing(v: Yaml) {
    v.Mapping? && Get(v.entries, CODE) == Some(Text("BERLIN_BOUNDARY_ARTIFACT_MISSING"))
  }

  datatype Class = DigestKey | PathKey | PlainKey

  function Lowered(cfg: Config, s: string): string {
    if IsAscii(s) then LowerAscii(s) else cfg.lower(s)
  }

  function Classify(cfg: Config, key: Key): Class {
    var lowered := Lowered(cfg, key.shown);
    if !Contains(lowered, "boundary") then PlainKey
    else if Contains(lowered, "digest") then DigestKey
    else if Contains(lowered, "path") || Contains(lowered, "artifact") || Contains(lowered, "reference")
            || Contains(lowered, "file") then PathKey
    else PlainKey
  }

  /** `isinstance(value, Sequence) and not value`: empty text and bytes count too. */
  predicate EmptySequence(v: Option<Yaml>) {
    v == Some(List([])) || v == Some(Text("")) || v == Some(Bytes([]))
  }

  /** A readiness mapping that has nothing left to block it. */
  predicate Unsettled(es: seq<Entry>) {
    var readiness := Get(es, READINESS);
    readiness.Some? && readiness.value.Mapping? && EmptySequence(Get(readiness.value.entries, BLOCKERS))
  }

  function Ready(es: seq<Entry>): seq<Entry> {
    Drop(Put(es, STATE, Text("ready")), BLOCKERS)
  }

  function Settle(es: seq<Entry>): seq<Entry> {
    if Unsettled(es) then Put(es, READINESS, Mapping(Ready(Get(es, READINESS).value.entries))) else es
  }

  /** The rewritten tree. */
  function Rewrite(cfg: Config, v: Yaml): Yaml
    decreases v, 1
  {
    match v
    case List(items) => List(RewriteItems(cfg, items))
    case Mapping(entries) => Mapping(Settle(RewriteEntries(cfg, entries)))
    case _ => v
  }

  function RewriteItems(cfg: Config, items: seq<Yaml>): seq<Yaml>
    decreases items, 0
  {
    if items == [] then []
    else
      var last := items[|items| - 1];
      RewriteItems(cfg, items[..|items| - 1]) + if Missing(last) then [] else [Rewrite(cfg, last)]
  }

  function RewriteEntries(cfg: Config, es: seq<Entry>): (r: seq<Entry>)
    ensures |r| == |es|
    decreases es, 0
  {
    if es == [] then []
    else
      var last := es[|es| - 1];
      RewriteEntries(cfg, es[..|es| - 1]) + [Entry(last.key, RewriteValue(cfg, last))]
  }

  function RewriteValue(cfg: Config, e: Entry): Yaml
    decreases e, 2
  {
    match Classify(cfg, e.key)
    case DigestKey => Text(cfg.digest)
    case PathKey => if e.value.Text? then Text(cfg.boundaryPath) else Rewrite(cfg, e.value)
    case PlainKey => Rewrite(cfg, e.value)
  }

  /** The number of changes the rewrite reports. */
  function Changes(cfg: Config, v: Yaml): nat
    decreases v, 1
  {
    match v
    case List(items) => ItemChanges(cfg, items)
    case Mapping(entries) => EntryChanges(cfg, entries)
    case _ => 0
  }

  function ItemChanges(cfg: Config, items: seq<Yaml>): nat
    decreases items, 0
  {
    if items == [] then 0
    else
      var last := items[|items| - 1];
      ItemChanges(cfg, items[..|items| - 1]) + if Missing(last) then 1 else Changes(cfg, last)
  }

  function EntryChanges(cfg: Config, es: seq<Entry>): nat
    decreases es, 0
  {
    if es == [] then 0
    else
      var last := es[|es| - 1];
      EntryChanges(cfg, es[..|es| - 1]) + ValueChanges(cfg, last)
  }

  function ValueChanges(cfg: Config, e: Entry): nat
    decreases e, 2
  {
    match Classify(cfg, e.key)
    case DigestKey => 1
    case PathKey => if e.value.Text? then 1 else Changes(cfg, e.value)
    case PlainKey => Changes(cfg, e.value)
  }

  lemma {:induction false} ItemsNext(cfg: Config, items: seq<Yaml>, i: nat)
    requires i < |items|
    ensures RewriteItems(cfg, items[..i + 1])
      == RewriteItems(cfg, items[..i]) + if Missing(items[i]) then [] else [Rewrite(cfg, items[i])]
    ensures ItemChanges(cfg, items[..i + 1])
      == ItemChanges(cfg, items[..i]) + if Missing(items[i]) then 1 else Changes(cfg, items[i])
  {
    assert items[..i + 1][..i] == items[..i];
  }

  lemma {:induction false} EntriesNext(cfg: Config, es: seq<Entry>, i: nat)
    requires i < |es|
    ensures RewriteEntries(cfg, es[..i + 1])
      == RewriteEntries(cfg, es[..i]) + [Entry(es[i].key, RewriteValue(cfg, es[i]))]
    ensures EntryChanges(cfg, es[..i + 1]) == EntryChanges(cfg, es[..i]) + ValueChanges(cfg, es[i])
  {
    assert es[..i + 1][..i] == es[..i];
  }

  // ----------------------------------------------- what the rewrite does, in words

  /** A list item that reports the missing boundary. */
  ghost predicate IsBlocker(v: Yaml) {
    v.Mapping? && Get(v.entries, Name("code")) == Some(Text("BERLIN_BOUNDARY_ARTIFACT_MISSING"))
  }

  ghost predicate TakesDigest(cfg: Config, e: Entry) {
    var lowered := Lowered(cfg, e.key.shown);
    Contains(lowered, "boundary") && Contains(lowered, "digest")
  }

  ghost predicate TakesPath(cfg: Config, e: Entry) {
    var lowered := Lowered(cfg, e.key.shown);
    && !TakesDigest(cfg, e) && Contains(lowered, "boundary") && e.value.Text?
    && (|| Contains(lowered, "path") || Contains(lowered, "artifact")
        || Contains(lowered, "reference") || Contains(lowered, "file"))
  }

  /** The indices, in order, of the items that are not missing-boundary blockers. */
  ghost predicate Survivors(items: seq<Yaml>, picks: seq<int>) {
    && (forall j :: 0 <= j < |picks| ==> 0 <= picks[j] < |items|)
    && (forall j, k :: 0 <= j < k < |picks| ==> picks[j] < picks[k])
    && forall i :: 0 <= i < |items| ==> (i in picks <==> !IsBlocker(items[i]))
  }

  /** A mapping after its values were rewritten, and what settling its readiness makes of it. */
  ghost predicate Settles(before: seq<Entry>, after: seq<Entry>) {
    var was := Get(before, Name("readiness"));
    if was.Some? && was.value.Mapping?
       && Get(was.value.entries, Name("blockers")) in {Some(List([])), Some(Text("")), Some(Bytes([]))} then
      && |after| == |before|
      && (forall i :: 0 <= i < |after| ==> after[i].key == before[i].key)
      && (forall i :: 0 <= i < |after| && before[i].key != Name("readiness") ==> after[i] == before[i])
      && var now := Get(after, Name("readiness"));
        && now.Some? && now.value.Mapping?
        && Get(now.value.entries, Name("state")) == Some(Text("ready"))
        && Get(now.value.entries, Name("blockers")) == None
        && forall key :: key != Name("state") && key != Name("blockers") ==>
            Get(now.value.entries, key) == Get(was.value.entries, key)
    else after == before
  }

  /** What becomes of a value under its key. */
  ghost predicate ValueBecomes(cfg: Config, e: Entry, r: Yaml)
    decreases e, 2
  {
    if TakesDigest(cfg, e) then r == Text(cfg.digest)
    else if TakesPath(cfg, e) then r == Text(cfg.boundaryPath)
    else Becomes(cfg, e.value, r)
  }

  /** The values under their keys, one for one. */
  ghost predicate ValuesBecome(cfg: Config, es: seq<Entry>, before: seq<Entry>)
    decreases es, 3
  {
    && |before| == |es|
    && forall i :: 0 <= i < |es| ==> before[i].key == es[i].key && ValueBecomes(cfg, es[i], before[i].value)
  }

  /** The picked items, one for one. */
  ghost predicate ItemsBecome(cfg: Config, items: seq<Yaml>, picks: seq<int>, after: seq<Yaml>)
    decreases items, 0
  {
    && |after| == |picks|
    && forall j :: 0 <= j < |picks| ==> 0 <= picks[j] < |items| && Becomes(cfg, items[picks[j]], after[j])
  }

  /**
    `r` is `v` with the blockers about the missing boundary taken out of every list, the digest and
    the path written under the keys that ask for them, and every readiness without blockers settled.
   */
  ghost predicate Becomes(cfg: Config, v: Yaml, r: Yaml)
    decreases v, 1
  {
    match v
    case List(items) =>
      r.List? && exists picks: seq<int> :: Survivors(items, picks) && ItemsBecome(cfg, items, picks, r.items)
    case Mapping(es) =>
      r.Mapping? && exists before: seq<Entry> :: ValuesBecome(cfg, es, before) && Settles(before, r.entries)
    case _ => r == v
  }

  lemma {:induction false} RewriteBecomes(cfg: Config, v: Yaml)
    ensures Becomes(cfg, v, Rewrite(cfg, v))
    decreases v, 1
  {
    match v
    case List(items) =>
      var picks := RewriteItemsBecome(cfg, items);
    case Mapping(es) =>
      var before := RewriteEntries(cfg, es);
      forall i | 0 <= i < |es|
        ensures before[i].key == es[i].key && ValueBecomes(cfg, es[i], before[i].value)
      {
        RewriteEntriesAt(cfg, es, i);
        EntryBecomes(cfg, es[i]);
      }
      SettleSettles(before);
    case _ =>
  }

  lemma {:induction false} EntryBecomes(cfg: Config, e: Entry)
    ensures ValueBecomes(cfg, e, RewriteValue(cfg, e))
    decreases e, 2
  {
    RewriteBecomes(cfg, e.value);
  }

  lemma {:induction false} RewriteItemsBecome(cfg: Config, items: seq<Yaml>) returns (picks: seq<int>)
    ensures Survivors(items, picks) && ItemsBecome(cfg, items, picks, RewriteItems(cfg, items))
    decreases items, 0
  {
    picks := [];
    if items != [] {
      var init, last := items[..|items| - 1], items[|items| - 1];
      var before := RewriteItemsBecome(cfg, init);
      RewriteBecomes(cfg, last);
      assert items == init + [last];
      picks := ItemsBecomeNext(cfg, init, last, before, RewriteItems(cfg, init), Rewrite(cfg, last));
    }
  }

  lemma {:induction false} ItemsBecomeNext(
    cfg: Config, items: seq<Yaml>, last: Yaml, before: seq<int>, after: seq<Yaml>, r: Yaml)
    returns (picks: seq<int>)
    requires Survivors(items, before) && ItemsBecome(cfg, items, before, after) && Becomes(cfg, last, r)
    ensures Survivors(items + [last], picks)
    ensures ItemsBecome(cfg, items + [last], picks, after + if Missing(last) then [] else [r])
  {
    SurvivorsNext(items, last, before);
    PicksStay(cfg, items, last, before, after);
    if Missing(last) {
      picks := before;
      assert after + [] == after;
    } else {
      picks := before + [|items|];
      PickLast(cfg, items + [last], before, after, r);
    }
  }

  lemma {:induction false} PicksStay(cfg: Config, items: seq<Yaml>, last: Yaml, picks: seq<int>, after: seq<Yaml>)
    requires ItemsBecome(cfg, items, picks, after)
    ensures ItemsBecome(cfg, items + [last], picks, after)
  {
    forall j | 0 <= j < |picks|
      ensures 0 <= picks[j] < |items + [last]| && Becomes(cfg, (items + [last])[picks[j]], after[j])
    {
      assert (items + [last])[picks[j]] == items[picks[j]];
    }
  }

  lemma {:induction false} PickLast(cfg: Config, items: seq<Yaml>, picks: seq<int>, after: seq<Yaml>, r: Yaml)
    requires items != [] && ItemsBecome(cfg, items, picks, after) && Becomes(cfg, items[|items| - 1], r)
    ensures ItemsBecome(cfg, items, picks + [|items| - 1], after + [r])
  {
  }

  lemma {:induction false} SurvivorsNext(items: seq<Yaml>, last: Yaml, picks: seq<int>)
    requires Survivors(items, picks)
    ensures Survivors(items + [last], if Missing(last) then picks else picks + [|items|])
  {
    var all, next := items + [last], if Missing(last) then picks else picks + [|items|];
    assert |items| !in picks;
    forall i | 0 <= i < |all| ensures i in next <==> !Missing(all[i]) {
      assert i < |items| ==> all[i] == items[i];
    }
  }

  lemma {:induction false} PutPlace(es: seq<Entry>, key: Key, value: Yaml)
    requires Get(es, key).Some?
    ensures var r := Put(es, key, value);
      |r| == |es| && forall i :: 0 <= i < |es| ==> r[i].key == es[i].key && (es[i].key != key ==> r[i] == es[i])
  {
    if es[0].key != key {
      PutPlace(es[1..], key, value);
    }
  }

  lemma {:induction false} SettleSettles(before: seq<Entry>)
    ensures Settles(before, Settle(before))
  {
    if Unsettled(before) {
      NamesDiffer();
      var inner := Get(before, READINESS).value.entries;
      var stated := Put(inner, STATE, Text("ready"));
      PutPlace(before, READINESS, Mapping(Ready(inner)));
      GetPut(before, READINESS, Mapping(Ready(inner)), READINESS);
      forall key
        ensures Get(Ready(inner), key) ==
          if key == BLOCKERS then None else if key == STATE then Some(Text("ready")) else Get(inner, key)
      {
        GetPut(inner, STATE, Text("ready"), key);
        GetDrop(stated, BLOCKERS, key);
      }
    }
  }

  /** A place in the tree, as the indices leading to it, where the rewrite replaces or removes something. */
  ghost predicate Site(cfg: Config, v: Yaml, place: seq<nat>)
    decreases v, 1
  {
    match v
    case List(items) => ItemSite(cfg, items, place)
    case Mapping(es) => EntrySite(cfg, es, place)
    case _ => false
  }

  ghost predicate ItemSite(cfg: Config, items: seq<Yaml>, place: seq<nat>)
    decreases items, 0
  {
    && place != [] && place[0] < |items|
    && if IsBlocker(items[place[0]]) then place[1..] == [] else Site(cfg, items[place[0]], place[1..])
  }

  ghost predicate EntrySite(cfg: Config, es: seq<Entry>, place: seq<nat>)
    decreases es, 3
  {
    place != [] && place[0] < |es| && ValueSite(cfg, es[place[0]], place[1..])
  }

  ghost predicate ValueSite(cfg: Config, e: Entry, place: seq<nat>)
    decreases e, 2
  {
    if TakesDigest(cfg, e) || TakesPath(cfg, e) then place == [] else Site(cfg, e.value, place)
  }

  /** The reported number is the number of places replaced or removed. */
  lemma {:induction false} ChangesCountSites(cfg: Config, v: Yaml) returns (sites: set<seq<nat>>)
    ensures |sites| == Changes(cfg, v)
    ensures forall place :: place in sites <==> Site(cfg, v, place)
    decreases v, 1
  {
    match v
    case List(items) => sites := ItemChangesCount(cfg, items);
    case Mapping(es) => sites := EntryChangesCount(cfg, es);
    case _ => sites := {};
  }

  lemma {:induction false} ItemChangesCount(cfg: Config, items: seq<Yaml>) returns (sites: set<seq<nat>>)
    ensures |sites| == ItemChanges(cfg, items)
    ensures forall place :: place in sites <==> ItemSite(cfg, items, place)
    decreases items, 0
  {
    sites := {};
    if items != [] {
      var init, last := items[..|items| - 1], items[|items| - 1];
      var before := ItemChangesCount(cfg, init);
      var here := {[]};
      if !Missing(last) {
        here := ChangesCountSites(cfg, last);
      }
      sites := SitesNext(before, here, |init|);
      assert items == init + [last];
      forall place ensures place in sites <==> ItemSite(cfg, items, place) {
        if place != [] && place[0] < |init| {
          assert items[place[0]] == init[place[0]];
        }
      }
    }
  }

  lemma {:induction false} EntryChangesCount(cfg: Config, es: seq<Entry>) returns (sites: set<seq<nat>>)
    ensures |sites| == EntryChanges(cfg, es)
    ensures forall place :: place in sites <==> EntrySite(cfg, es, place)
    decreases es, 0
  {
    sites := {};
    if es != [] {
      var init, last := es[..|es| - 1], es[|es| - 1];
      var before := EntryChangesCount(cfg, init);
      var here := ValueChangesCount(cfg, last);
      sites := SitesNext(before, here, |init|);
      assert es == init + [last];
      forall place ensures place in sites <==> EntrySite(cfg, es, place) {
        if place != [] && place[0] < |init| {
          assert es[place[0]] == init[place[0]];
        }
      }
    }
  }

  lemma {:induction false} ValueChangesCount(cfg: Config, e: Entry) returns (sites: set<seq<nat>>)
    ensures |sites| == ValueChanges(cfg, e)
    ensures forall place :: place in sites <==> ValueSite(cfg, e, place)
    decreases e, 2
  {
    if TakesDigest(cfg, e) || TakesPath(cfg, e) {
      sites := {[]};
    } else {
      sites := ChangesCountSites(cfg, e.value);
    }
  }

  /** The places before index `n`, and the places `here` below it. */
  lemma {:induction false} SitesNext(before: set<seq<nat>>, here: set<seq<nat>>, n: nat)
    returns (all: set<seq<nat>>)
    requires forall place :: place in before ==> place != [] && place[0] < n
    ensures |all| == |before| + |here|
    ensures forall place :: place in all <==>
      place in before || (place != [] && place[0] == n && place[1..] in here)
  {
    var below := Below(here, n);
    all := before + below;
    assert before !! below;
  }

  lemma {:induction false} Below(here: set<seq<nat>>, n: nat) returns (below: set<seq<nat>>)
    ensures |below| == |here|
    ensures forall place :: place in below <==> place != [] && place[0] == n && place[1..] in here
  {
    below := {};
    if here != {} {
      var one :| one in here;
      var rest := Below(here - {one}, n);
      assert [n] + one !in rest by {
        assert ([n] + one)[1..] == one;
      }
      below := rest + {[n] + one};
      forall place ensures place in below <==> place != [] && place[0] == n && place[1..] in here {
        if place != [] && place[0] == n && place[1..] == one {
          assert place == [n] + one;
        }
        assert ([n] + one)[1..] == one;
      }
    }
  }

  /** `_update_yaml_value`. */
  method Update(cfg: Config, v: Yaml) returns (r: Yaml, changes: nat)
    ensures r == Rewrite(cfg, v) && changes == Changes(cfg, v)
    decreases v
  {
    changes := 0;
    if v.List? {
      var updated: seq<Yaml> := [];
      for i := 0 to |v.items|
        invariant updated == RewriteItems(cfg, v.items[..i]) && changes == ItemChanges(cfg, v.items[..i])
      {
        ItemsNext(cfg, v.items, i);
        if Missing(v.items[i]) {
          changes := changes + 1;
          continue;
        }
        var rewritten, more := Update(cfg, v.items[i]);
        changes := changes + more;
        updated := updated + [rewritten];
      }
      assert v.items[..|v.items|] == v.items;
      return List(updated), changes;
    }
    if !v.Mapping? {
      return v, 0;
    }
    var result: seq<Entry> := [];
    for i := 0 to |v.entries|
      invariant result == RewriteEntries(cfg, v.entries[..i]) && changes == EntryChanges(cfg, v.entries[..i])
    {
      var key, item := v.entries[i].key, v.entries[i].value;
      EntriesNext(cfg, v.entries, i);
      var kind := Classify(cfg, key);
      if kind == DigestKey {
        result := result + [Entry(key, Text(cfg.digest))];
        changes := changes + 1;
        continue;
      }
      if kind == PathKey && item.Text? {
        result := result + [Entry(key, Text(cfg.boundaryPath))];
        changes := changes + 1;
        continue;
      }
      var rewritten, more := Update(cfg, item);
      result := result + [Entry(key, rewritten)];
      changes := changes + more;
    }
    assert v.entries[..|v.entries|] == v.entries;
    var readiness := Get(result, READINESS);
    if readiness.Some? && readiness.value.Mapping? {
      if EmptySequence(Get(readiness.value.entries, BLOCKERS)) {
        var settled := Put(readiness.value.entries, STATE, Text("ready"));
        settled := Drop(settled, BLOCKERS);
        result := Put(result, READINESS, Mapping(settled));
      }
    }
    r := Mapping(result);
  }

  // ------------------------------------------------------------- normal trees

  /** A tree the rewrite has nothing to do on. */
  ghost predicate Normal(cfg: Config, v: Yaml)
    decreases v, 1
  {
    match v
    case List(items) => NormalItems(cfg, items)
    case Mapping(es) => !Unsettled(es) && forall i :: 0 <= i < |es| ==> NormalEntry(cfg, es[i])
    case _ => true
  }

  ghost predicate NormalItems(cfg: Config, items: seq<Yaml>)
    decreases items, 0
  {
    forall i :: 0 <= i < |items| ==> !Missing(items[i]) && Normal(cfg, items[i])
  }

  ghost predicate NormalEntry(cfg: Config, e: Entry)
    decreases e, 2
  {
    match Classify(cfg, e.key)
    case DigestKey => e.value == Text(cfg.digest)
    case PathKey => if e.value.Text? then e.value == Text(cfg.boundaryPath) else Normal(cfg, e.value)
    case PlainKey => Normal(cfg, e.value)
  }

  ghost predicate NormalEntries(cfg: Config, es: seq<Entry>) {
    forall i :: 0 <= i < |es| ==> NormalEntry(cfg, es[i])
  }

  /** The four field names the rewrite relies on are ordinary keys. */
  lemma {:induction false} PlainNames(cfg: Config)
    ensures Classify(cfg, CODE) == PlainKey && Classify(cfg, READINESS) == PlainKey
    ensures Classify(cfg, BLOCKERS) == PlainKey && Classify(cfg, STATE) == PlainKey
  {
    NamesWithoutY();
    WithoutY(cfg, CODE);
    WithoutY(cfg, READINESS);
    WithoutY(cfg, BLOCKERS);
    WithoutY(cfg, STATE);
  }

  predicate NoY(s: string) {
    IsAscii(s) && 'y' !in s && 'Y' !in s
  }

  lemma {:induction false} NamesWithoutY()
    ensures NoY(CODE.shown) && NoY(READINESS.shown) && NoY(BLOCKERS.shown) && NoY(STATE.shown)
  {
  }

  lemma {:induction false} WithoutY(cfg: Config, key: Key)
    requires NoY(key.shown)
    ensures Classify(cfg, key) == PlainKey
  {
    var low := LowerAscii(key.shown);
    forall i | 0 <= i < |low| ensures low[i] != 'y' {
      assert key.shown[i] in key.shown;
    }
    assert "boundary"[7] == 'y';
    if Contains(low, "boundary") {
      ContainsChar(low, "boundary", 'y');
    }
  }

  // --------------------------------------------- the result of a rewrite is normal

  lemma {:induction false} PutNormal(cfg: Config, es: seq<Entry>, key: Key, value: Yaml)
    requires NormalEntries(cfg, es) && NormalEntry(cfg, Entry(key, value))
    ensures NormalEntries(cfg, Put(es, key, value))
  {
    if es != [] && es[0].key != key {
      PutNormal(cfg, es[1..], key, value);
    }
  }

  lemma {:induction false} DropNormal(cfg: Config, es: seq<Entry>, key: Key)
    requires NormalEntries(cfg, es)
    ensures NormalEntries(cfg, Drop(es, key))
  {
    if es != [] {
      DropNormal(cfg, es[1..], key);
    }
  }

  lemma {:induction false} NamesDiffer()
    ensures READINESS != STATE && READINESS != BLOCKERS && STATE != BLOCKERS && CODE != READINESS
  {
    assert |"readiness"| == 9 && |"state"| == 5 && |"blockers"| == 8 && |"code"| == 4;
  }

  lemma {:induction false} ReadyNormal(cfg: Config, es: seq<Entry>)
    requires Normal(cfg, Mapping(es))
    ensures Normal(cfg, Mapping(Ready(es)))
    ensures Get(Ready(es), STATE) == Some(Text("ready")) && Get(Ready(es), BLOCKERS) == None
    ensures Get(Ready(es), READINESS) == Get(es, READINESS)
  {
    PlainNames(cfg);
    NamesDiffer();
    var stated := Put(es, STATE, Text("ready"));
    PutNormal(cfg, es, STATE, Text("ready"));
    DropNormal(cfg, stated, BLOCKERS);
    GetPut(es, STATE, Text("ready"), STATE);
    GetPut(es, STATE, Text("ready"), READINESS);
    GetDrop(stated, BLOCKERS, STATE);
    GetDrop(stated, BLOCKERS, BLOCKERS);
    GetDrop(stated, BLOCKERS, READINESS);
  }

  lemma {:induction false} SettleNormal(cfg: Config, es: seq<Entry>)
    requires NormalEntries(cfg, es)
    ensures Normal(cfg, Mapping(Settle(es)))
  {
    if Unsettled(es) {
      var inner := Get(es, READINESS).value.entries;
      ReadinessNormal(cfg, es);
      ReadyNormal(cfg, inner);
      PlainNames(cfg);
      PutNormal(cfg, es, READINESS, Mapping(Ready(inner)));
      GetPut(es, READINESS, Mapping(Ready(inner)), READINESS);
    }
  }

  lemma {:induction false} ReadinessNormal(cfg: Config, es: seq<Entry>)
    requires NormalEntries(cfg, es) && Unsettled(es)
    ensures Normal(cfg, Get(es, READINESS).value)
  {
    PlainNames(cfg);
    GetMember(es, READINESS);
  }

  /** Rewriting keeps the code of an entry, so no entry turns into a missing-boundary blocker. */
  lemma {:induction false} RewriteKeepsMissing(cfg: Config, v: Yaml)
    ensures Missing(Rewrite(cfg, v)) <==> Missing(v)
  {
    if v.Mapping? {
      PlainNames(cfg);
      NamesDiffer();
      RewriteTextField(cfg, v.entries, CODE, "BERLIN_BOUNDARY_ARTIFACT_MISSING");
    }
  }

  lemma {:induction false} SettleGet(es: seq<Entry>, key: Key)
    requires key != READINESS
    ensures Get(Settle(es), key) == Get(es, key)
  {
    if Unsettled(es) {
      GetPut(es, READINESS, Mapping(Ready(Get(es, READINESS).value.entries)), key);
    }
  }

  lemma {:induction false} RewriteTextField(cfg: Config, es: seq<Entry>, key: Key, t: string)
    requires Classify(cfg, key) == PlainKey && key != READINESS
    ensures Get(Settle(RewriteEntries(cfg, es)), key) == Some(Text(t)) <==> Get(es, key) == Some(Text(t))
  {
    RewriteGet(cfg, es, key);
    SettleGet(RewriteEntries(cfg, es), key);
    if Get(es, key).Some? {
      RewriteText(cfg, Get(es, key).value);
    }
  }

  lemma {:induction false} GetSnoc(es: seq<Entry>, e: Entry, key: Key)
    ensures Get(es, key).Some? ==> Get(es + [e], key) == Get(es, key)
    ensures Get(es, key).None? ==> Get(es + [e], key) == if e.key == key then Some(e.value) else None
  {
    if es == [] {
      assert [e][1..] == [];
    } else {
      assert (es + [e])[1..] == es[1..] + [e];
      GetSnoc(es[1..], e, key);
    }
  }

  lemma {:induction false} RewriteGet(cfg: Config, es: seq<Entry>, key: Key)
    ensures Get(RewriteEntries(cfg, es), key) ==
      if Get(es, key).Some? then Some(RewriteValue(cfg, Entry(key, Get(es, key).value))) else None
  {
    if es != [] {
      var init, last := es[..|es| - 1], es[|es| - 1];
      RewriteGet(cfg, init, key);
      assert es == init + [last];
      GetSnoc(init, last, key);
      GetSnoc(RewriteEntries(cfg, init), Entry(last.key, RewriteValue(cfg, last)), key);
    }
  }

  lemma {:induction false} RewriteNormal(cfg: Config, v: Yaml)
    ensures Normal(cfg, Rewrite(cfg, v))
    decreases v, 1
  {
    match v
    case List(items) => RewriteItemsNormal(cfg, items);
    case Mapping(es) =>
      RewriteEntriesNormal(cfg, es);
      SettleNormal(cfg, RewriteEntries(cfg, es));
    case _ =>
  }

  lemma {:induction false} RewriteItemsNormal(cfg: Config, items: seq<Yaml>)
    ensures NormalItems(cfg, RewriteItems(cfg, items))
    decreases items, 0
  {
    if items != [] {
      var init, last := items[..|items| - 1], items[|items| - 1];
      RewriteItemsNormal(cfg, init);
      RewriteNormal(cfg, last);
      RewriteKeepsMissing(cfg, last);
      NormalItemsSnoc(cfg, RewriteItems(cfg, init), Rewrite(cfg, last));
      assert RewriteItems(cfg, init) + [] == RewriteItems(cfg, init);
    }
  }

  lemma {:induction false} NormalItemsSnoc(cfg: Config, items: seq<Yaml>, v: Yaml)
    requires NormalItems(cfg, items)
    ensures Normal(cfg, v) && !Missing(v) ==> NormalItems(cfg, items + [v])
  {
  }

  lemma {:induction false} RewriteEntriesNormal(cfg: Config, es: seq<Entry>)
    ensures NormalEntries(cfg, RewriteEntries(cfg, es))
    decreases es, 0
  {
    if es != [] {
      var last := es[|es| - 1];
      RewriteEntriesNormal(cfg, es[..|es| - 1]);
      RewriteEntryNormal(cfg, last);
    }
  }

  lemma {:induction false} RewriteEntryNormal(cfg: Config, e: Entry)
    ensures NormalEntry(cfg, Entry(e.key, RewriteValue(cfg, e)))
    decreases e, 2
  {
    RewriteNormal(cfg, e.value);
    RewriteText(cfg, e.value);
  }

  lemma {:induction false} RewriteText(cfg: Config, v: Yaml)
    ensures Rewrite(cfg, v).Text? <==> v.Text?
  {
  }

  // ------------------------------------------------- normal trees stay the same

  lemma {:induction false} NormalStays(cfg: Config, v: Yaml)
    requires Normal(cfg, v)
    ensures Rewrite(cfg, v) == v
    decreases v, 1
  {
    match v
    case List(items) => NormalItemsStay(cfg, items);
    case Mapping(es) => NormalEntriesStay(cfg, es);
    case _ =>
  }

  lemma {:induction false} NormalItemsStay(cfg: Config, items: seq<Yaml>)
    requires NormalItems(cfg, items)
    ensures RewriteItems(cfg, items) == items
    decreases items, 0
  {
    if items != [] {
      var init, last := items[..|items| - 1], items[|items| - 1];
      NormalItemsSplit(cfg, items);
      NormalItemsStay(cfg, init);
      NormalStays(cfg, last);
      assert items == init + [last];
    }
  }

  lemma {:induction false} NormalItemsSplit(cfg: Config, items: seq<Yaml>)
    requires NormalItems(cfg, items) && items != []
    ensures NormalItems(cfg, items[..|items| - 1])
    ensures !Missing(items[|items| - 1]) && Normal(cfg, items[|items| - 1])
  {
  }

  lemma {:induction false} NormalEntriesStay(cfg: Config, es: seq<Entry>)
    requires NormalEntries(cfg, es)
    ensures RewriteEntries(cfg, es) == es
    decreases es, 3
  {
    forall i | 0 <= i < |es| ensures RewriteEntries(cfg, es)[i] == es[i] {
      NormalEntryStays(cfg, es[i]);
      RewriteEntriesAt(cfg, es, i);
    }
  }

  lemma {:induction false} RewriteEntriesAt(cfg: Config, es: seq<Entry>, i: nat)
    requires i < |es|
    ensures RewriteEntries(cfg, es)[i] == Entry(es[i].key, RewriteValue(cfg, es[i]))
    decreases |es|
  {
    if i < |es| - 1 {
      RewriteEntriesAt(cfg, es[..|es| - 1], i);
    }
  }

  lemma {:induction false} NormalEntryStays(cfg: Config, e: Entry)
    requires NormalEntry(cfg, e)
    ensures RewriteValue(cfg, e) == e.value
    decreases e, 2
  {
    if Classify(cfg, e.key) == PlainKey || (Classify(cfg, e.key) == PathKey && !e.value.Text?) {
      NormalStays(cfg, e.value);
    }
  }

  // ------------------------------------------------------------ main results

  /** Rewriting twice is rewriting once, and a tree is left alone exactly when it is normal. */
  lemma {:induction false} RewriteIdempotent(cfg: Config, v: Yaml)
    ensures Rewrite(cfg, Rewrite(cfg, v)) == Rewrite(cfg, v)
    ensures Rewrite(cfg, v) == v <==> Normal(cfg, v)
  {
    RewriteNormal(cfg, v);
    NormalStays(cfg, Rewrite(cfg, v));
    if Normal(cfg, v) {
      NormalStays(cfg, v);
    }
  }

  /** `w` occurs in the tree `v`. */
  ghost predicate Within(w: Yaml, v: Yaml)
    decreases v
  {
    || w == v
    || (v.List? && exists i :: 0 <= i < |v.items| && Within(w, v.items[i]))
    || (v.Mapping? && exists i :: 0 <= i < |v.entries| && Within(w, v.entries[i].value))
  }

  lemma {:induction false} NormalThroughout(cfg: Config, v: Yaml, w: Yaml)
    requires Normal(cfg, v) && Within(w, v)
    ensures Normal(cfg, w)
    decreases v
  {
    if w != v {
      if v.List? {
        var i :| 0 <= i < |v.items| && Within(w, v.items[i]);
        NormalThroughout(cfg, v.items[i], w);
      } else {
        var i :| 0 <= i < |v.entries| && Within(w, v.entries[i].value);
        assert NormalEntry(cfg, v.entries[i]);
        assert Normal(cfg, v.entries[i].value);
        NormalThroughout(cfg, v.entries[i].value, w);
      }
    }
  }

  /** Nowhere in the result does a list hold a missing-boundary blocker, and nowhere does a mapping
      hold a readiness with nothing left to block it. */
  lemma {:induction false} NothingLeftBehind(cfg: Config, v: Yaml, w: Yaml)
    requires Within(w, Rewrite(cfg, v))
    ensures w.List? ==> forall i :: 0 <= i < |w.items| ==> !Missing(w.items[i])
    ensures w.Mapping? ==> !Unsettled(w.entries)
  {
    RewriteNormal(cfg, v);
    NormalThroughout(cfg, Rewrite(cfg, v), w);
  }

  /** A readiness whose rewritten blockers are an empty sequence becomes ready and loses its
      blockers; its other fields and the other fields of the mapping are the rewritten ones. */
  lemma {:induction false} ReadinessSettles(cfg: Config, es: seq<Entry>, key: Key)
    requires Unsettled(RewriteEntries(cfg, es))
    ensures var after := Rewrite(cfg, Mapping(es)).entries;
      var inner := Get(RewriteEntries(cfg, es), READINESS).value.entries;
      && Get(after, READINESS).Some? && Get(after, READINESS).value.Mapping?
      && Get(Get(after, READINESS).value.entries, STATE) == Some(Text("ready"))
      && Get(Get(after, READINESS).value.entries, BLOCKERS) == None
      && (key != STATE && key != BLOCKERS ==> Get(Get(after, READINESS).value.entries, key) == Get(inner, key))
      && (key != READINESS ==> Get(after, key) == Get(RewriteEntries(cfg, es), key))
  {
    NamesDiffer();
    var before := RewriteEntries(cfg, es);
    var inner := Get(before, READINESS).value.entries;
    var stated := Put(inner, STATE, Text("ready"));
    GetPut(before, READINESS, Mapping(Ready(inner)), READINESS);
    GetPut(before, READINESS, Mapping(Ready(inner)), key);
    GetPut(inner, STATE, Text("ready"), STATE);
    GetPut(inner, STATE, Text("ready"), key);
    GetDrop(stated, BLOCKERS, STATE);
    GetDrop(stated, BLOCKERS, BLOCKERS);
    GetDrop(stated, BLOCKERS, key);
  }

  // -------------------------------------------- a change that is not counted

  /** Somewhere in the tree a readiness waits to be settled. */
  ghost predicate Stuck(v: Yaml)
    decreases v
  {
    match v
    case List(items) => exists i :: 0 <= i < |items| && Stuck(items[i])
    case Mapping(es) => Unsettled(es) || exists i :: 0 <= i < |es| && Stuck(es[i].value)
    case _ => false
  }

  lemma {:induction false} NoItemChanges(cfg: Config, items: seq<Yaml>, i: nat)
    requires i < |items| && ItemChanges(cfg, items) == 0
    ensures !Missing(items[i]) && Changes(cfg, items[i]) == 0
    decreases |items|
  {
    if i < |items| - 1 {
      NoItemChanges(cfg, items[..|items| - 1], i);
    }
  }

  lemma {:induction false} NoEntryChanges(cfg: Config, es: seq<Entry>, i: nat)
    requires i < |es| && EntryChanges(cfg, es) == 0
    ensures ValueChanges(cfg, es[i]) == 0
    decreases |es|
  {
    if i < |es| - 1 {
      NoEntryChanges(cfg, es[..|es| - 1], i);
    }
  }

  lemma {:induction false} UncountedIsStuck(cfg: Config, v: Yaml)
    requires Changes(cfg, v) == 0
    ensures Normal(cfg, v) <==> !Stuck(v)
    decreases v
  {
    match v
    case List(items) =>
      forall i | 0 <= i < |items| ensures !Missing(items[i]) && (Normal(cfg, items[i]) <==> !Stuck(items[i])) {
        NoItemChanges(cfg, items, i);
        UncountedIsStuck(cfg, items[i]);
      }
    case Mapping(es) =>
      forall i | 0 <= i < |es| ensures NormalEntry(cfg, es[i]) <==> !Stuck(es[i].value) {
        NoEntryChanges(cfg, es, i);
        UncountedIsStuck(cfg, es[i].value);
      }
    case _ =>
  }

  /** With no change reported the file is not written.  The rewrite would still have changed it
      exactly when some readiness has empty blockers. */
  lemma {:induction false} UncountedChange(cfg: Config, v: Yaml)
    requires Changes(cfg, v) == 0
    ensures Rewrite(cfg, v) != v <==> Stuck(v)
  {
    RewriteIdempotent(cfg, v);
    UncountedIsStuck(cfg, v);
  }

  /** The smallest such file: a readiness with an empty blocker list and nothing else. */
  lemma {:induction false} SilentReadiness(cfg: Config, v: Yaml, inner: seq<Entry>)
    requires inner == [Entry(BLOCKERS, List([]))] && v == Mapping([Entry(READINESS, Mapping(inner))])
    ensures Changes(cfg, v) == 0 && Rewrite(cfg, v) != v
  {
    PlainNames(cfg);
    OneEntry(cfg, BLOCKERS, List([]));
    OneEntry(cfg, READINESS, Mapping(inner));
    OneIsStuck(v.entries, inner, READINESS, BLOCKERS);
    UncountedChange(cfg, v);
  }

  lemma {:induction false} OneIsStuck(es: seq<Entry>, inner: seq<Entry>, readiness: Key, blockers: Key)
    requires readiness == READINESS && blockers == BLOCKERS
    requires inner == [Entry(blockers, List([]))] && es == [Entry(readiness, Mapping(inner))]
    ensures Stuck(Mapping(es))
  {
    assert Get(inner, blockers) == Some(List([]));
    assert Get(es, readiness) == Some(Mapping(inner));
  }

  lemma {:induction false} OneEntry(cfg: Config, key: Key, value: Yaml)
    requires Classify(cfg, key) == PlainKey && Changes(cfg, value) == 0
    ensures Changes(cfg, Mapping([Entry(key, value)])) == 0
  {
    var es := [Entry(key, value)];
    assert es[..0] == [];
    assert EntryChanges(cfg, es) == ValueChanges(cfg, Entry(key, value));
  }
}
