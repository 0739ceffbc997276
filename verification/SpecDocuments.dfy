/**
  What a query specification document says, and which specifications are allowed
  (connectors/osm_overpass/src/osm_overpass/input.py and contracts.py).

  The decoder of `OverpassSpec` is compared with a description of the document that uses none of
  its functions.
 */
module SpecDocuments {
  import opened Text
  import opened Utf8
  import opened Json
  import opened CanonicalJson
  import opened Floats
  import opened JsonLayout
  import opened OverpassContracts
  import opened OverpassSpec

  // ------------------------------------------------------- what a document says

  /** A JSON number, integer or not, whose double is `d`. */
  ghost predicate NumberIs(v: Json, d: Double, fl: Floats) {
    d.Finite? && (if v.Int? then fl.ofInt(v.n) == Some(d) else v.Float? && fl.ofToken(v.token) == d)
  }

  /** Latitude first. */
  ghost predicate PointIs(v: Json, p: GeoPoint, fl: Floats) {
    v.Arr? && |v.items| == 2 && NumberIs(v.items[0], p.latitude, fl) && NumberIs(v.items[1], p.longitude, fl)
  }

  ghost predicate TypeIs(v: Json, t: ElementType) {
    match t
    case Node => v == Str("node")
    case Relation => v == Str("relation")
    case Way => v == Str("way")
  }

  ghost predicate FilterIs(v: Json, f: TagFilter) {
    && v.Obj? && |v.entries| == 2 && Binds(v, "key", Str(f.key))
    && exists values :: Binds(v, "values", Arr(values)) && TextsAre(values, f.values)
  }

  ghost predicate TextsAre(values: seq<Json>, texts: seq<string>) {
    |values| == |texts| && forall i :: 0 <= i < |texts| ==> values[i] == Str(texts[i])
  }

  /** A dictionary of exactly the six fields. */
  ghost predicate Bound(
    root: Json, points: seq<Json>, types: seq<Json>, filters: seq<Json>, timeout: Json, maximum: Json)
  {
    && root.Obj? && |root.entries| == 6
    && Binds(root, "schemaRevision", Str("osm-overpass-query/1"))
    && Binds(root, "polygon", Arr(points)) && Binds(root, "elementTypes", Arr(types))
    && Binds(root, "tagFilters", Arr(filters))
    && Binds(root, "timeoutSeconds", timeout) && Binds(root, "maximumElements", maximum)
  }

  /** A dictionary of the six fields, from which the specification is read off. */
  ghost predicate SpecIs(
    root: Json, points: seq<Json>, types: seq<Json>, filters: seq<Json>, s: Spec, fl: Floats)
  {
    && Bound(root, points, types, filters, Int(s.timeoutSeconds), Int(s.maximumElements))
    && PartsAre(points, types, filters, s, fl)
  }

  /** The three lists, item by item. */
  ghost predicate PartsAre(points: seq<Json>, types: seq<Json>, filters: seq<Json>, s: Spec, fl: Floats) {
    && |points| == |s.polygon| && (forall i :: 0 <= i < |points| ==> PointIs(points[i], s.polygon[i], fl))
    && |types| == |s.elementTypes| && (forall i :: 0 <= i < |types| ==> TypeIs(types[i], s.elementTypes[i]))
    && |filters| == |s.tagFilters| && (forall i :: 0 <= i < |filters| ==> FilterIs(filters[i], s.tagFilters[i]))
  }

  /** The body is UTF-8, with or without a mark, within 4 MiB, and its document says `s`. */
  ghost predicate Says(body: seq<Byte>, s: Spec, fl: Floats) {
    && |body| <= 4 * 1024 * 1024 && DecodeSig(body).Some?
    && var root := Loads(DecodeSig(body).value);
      && root.Ok?
      && exists points, types, filters :: SpecIs(root.value, points, types, filters, s, fl)
  }

  // ------------------------------------------------------- what is allowed

  ghost predicate Word(c: char) {
    'A' <= c <= 'Z' || 'a' <= c <= 'z' || '0' <= c <= '9' || c == '_'
  }

  ghost predicate AllowedPoint(p: GeoPoint) {
    && p.latitude.Finite? && -90.0 <= p.latitude.value <= 90.0
    && p.longitude.Finite? && -180.0 <= p.longitude.value <= 180.0
  }

  ghost predicate Elsewhere(p: GeoPoint, q: GeoPoint) {
    ValueOf(p.latitude) != ValueOf(q.latitude) || ValueOf(p.longitude) != ValueOf(q.longitude)
  }

  ghost predicate Apart(points: seq<GeoPoint>, i: int, j: int, k: int) {
    && 0 <= i < |points| && 0 <= j < |points| && 0 <= k < |points|
    && Elsewhere(points[i], points[j]) && Elsewhere(points[i], points[k]) && Elsewhere(points[j], points[k])
  }

  /** Between 3 and 5000 points, of which three lie apart. */
  ghost predicate AllowedPolygon(points: seq<GeoPoint>) {
    && 3 <= |points| <= 5_000
    && (forall i :: 0 <= i < |points| ==> AllowedPoint(points[i]))
    && exists i, j, k :: Apart(points, i, j, k)
  }

  ghost predicate AllowedKey(key: string) {
    && 1 <= |key| <= 255 && Word(key[0])
    && forall i :: 0 <= i < |key| ==> Word(key[i]) || key[i] == '.' || key[i] == ':' || key[i] == '-'
  }

  ghost predicate AllowedFilter(f: TagFilter) {
    && AllowedKey(f.key) && 1 <= |f.values| <= 100
    && (forall i :: 0 <= i < |f.values| ==>
          && 1 <= |f.values[i]| <= 255
          && forall k :: 0 <= k < |f.values[i]| ==> f.values[i][k] !in {'\0', '\r', '\n'})
    && forall i, j :: 0 <= i < j < |f.values| ==> StrLt(f.values[i], f.values[j])
  }

  /** The first value at which two lists differ decides, and a proper prefix comes first. */
  ghost predicate ListBefore(a: seq<string>, b: seq<string>, n: nat) {
    && n <= |a| && n < |b| && a[..n] == b[..n]
    && (n < |a| ==> StrLt(a[n], b[n]))
  }

  ghost predicate FilterBefore(a: TagFilter, b: TagFilter) {
    StrLt(a.key, b.key) || (a.key == b.key && exists n: nat :: ListBefore(a.values, b.values, n))
  }

  function Place(t: ElementType): nat {
    match t
    case Node => 0
    case Relation => 1
    case Way => 2
  }

  ghost predicate Allowed(s: Spec) {
    && AllowedPolygon(s.polygon)
    && 1 <= |s.elementTypes|
    && (forall i, j :: 0 <= i < j < |s.elementTypes| ==> Place(s.elementTypes[i]) < Place(s.elementTypes[j]))
    && 1 <= |s.tagFilters| <= 100
    && (forall i :: 0 <= i < |s.tagFilters| ==> AllowedFilter(s.tagFilters[i]))
    && (forall i, j :: 0 <= i < j < |s.tagFilters| ==> FilterBefore(s.tagFilters[i], s.tagFilters[j]))
    && 1 <= s.timeoutSeconds <= 180
    && 1 <= s.maximumElements <= 100_000
  }

  // ------------------------------------------------------- part by part

  lemma {:induction false} CollectSays<T>(items: seq<Json>, one: Json -> Result<T, Error>, xs: seq<T>)
    ensures Collect(items, one) == Ok(xs) <==>
      |items| == |xs| && forall i :: 0 <= i < |items| ==> one(items[i]) == Ok(xs[i])
  {
    if items != [] {
      if xs != [] {
        CollectSays(items[1..], one, xs[1..]);
        assert xs == [xs[0]] + xs[1..];
      }
      if Collect(items, one) == Ok(xs) {
        var rest := Collect(items[1..], one);
        assert xs == [one(items[0]).value] + rest.value;
        assert rest.value == xs[1..];
      }
    }
  }

  lemma {:induction false} NumberSays(v: Json, d: Double, fl: Floats)
    ensures NumberAt(v, fl) == Ok(d) <==> NumberIs(v, d, fl)
  {
  }

  lemma {:induction false} PointSays(v: Json, p: GeoPoint, fl: Floats)
    ensures PointAt(v, fl) == Ok(p) <==> PointIs(v, p, fl) && AllowedPoint(p)
  {
    if v.Arr? && |v.items| == 2 {
      NumberSays(v.items[0], p.latitude, fl);
      NumberSays(v.items[1], p.longitude, fl);
    }
  }

  lemma {:induction false} TypeSays(v: Json, t: ElementType)
    ensures TypeAt(v) == Ok(t) <==> TypeIs(v, t)
  {
    assert |"node"| == 4 && |"way"| == 3 && |"relation"| == 8;
  }

  lemma {:induction false} ValuesSay(values: seq<Json>, texts: seq<string>)
    ensures Collect(values, VALUE_READER) == Ok(texts) <==> TextsAre(values, texts)
  {
    CollectSays(values, VALUE_READER, texts);
    if |values| == |texts| {
      forall i | 0 <= i < |values| ensures VALUE_READER(values[i]) == Ok(texts[i]) <==> values[i] == Str(texts[i]) {
      }
    }
  }

  lemma {:induction false} FilterAllowed(f: TagFilter)
    ensures ValidFilter(f) <==> AllowedFilter(f)
  {
  }

  lemma {:induction false} TwoNames(entries: seq<Member>, a: string, b: string)
    requires |entries| == 2 && a != b
    ensures HasFields(entries, [a, b]) ==> UniqueKeys(entries)
  {
    if HasFields(entries, [a, b]) {
      var names := [a, b];
      assert FieldIndex(entries, names[0]) < 2 && FieldIndex(entries, names[1]) < 2;
    }
  }

  /** With unique keys, reading a field is finding it bound. */
  lemma {:induction false} FieldBinds(entries: seq<Member>, name: string, v: Json)
    requires UniqueKeys(entries)
    ensures Binds(Obj(entries), name, v) <==> FieldIndex(entries, name) < |entries| && Field(entries, name) == v
  {
    var i := FieldIndex(entries, name);
    if i < |entries| {
      assert entries[i] == Member(name, entries[i].value);
    }
  }

  lemma {:induction false} FilterSays(v: Json, f: TagFilter)
    ensures FilterAt(v) == Ok(f) <==> FilterIs(v, f) && AllowedFilter(f)
  {
    FilterAllowed(f);
    if v.Obj? {
      FilterTakenIs(v.entries, f);
    }
  }

  lemma {:induction false} FilterNames()
    ensures "key" != "values"
  {
    assert |"key"| == 3 && |"values"| == 6;
  }

  /** What the reader takes from the two fields of a filter. */
  ghost predicate FilterTaken(entries: seq<Member>, f: TagFilter) {
    && HasFields(entries, ["key", "values"]) && Field(entries, "key") == Str(f.key) && Field(entries, "values").Arr?
    && Collect(Field(entries, "values").items, VALUE_READER) == Ok(f.values)
  }

  lemma {:induction false} FilterTakenIs(entries: seq<Member>, f: TagFilter)
    ensures FilterTaken(entries, f) <==> FilterIs(Obj(entries), f)
  {
    if |entries| == 2 {
      FilterNames();
      TwoNames(entries, "key", "values");
      if UniqueKeys(entries) {
        UniqueFilterTaken(entries, f);
      }
    }
  }

  lemma {:induction false} UniqueFilterTaken(entries: seq<Member>, f: TagFilter)
    requires |entries| == 2 && UniqueKeys(entries)
    ensures FilterTaken(entries, f) <==> FilterIs(Obj(entries), f)
  {
    var names := ["key", "values"];
    var values := Field(entries, "values");
    FieldBinds(entries, "key", Str(f.key));
    FieldBinds(entries, "values", values);
    forall list ensures Binds(Obj(entries), "values", Arr(list)) ==> values == Arr(list) {
      FieldBinds(entries, "values", Arr(list));
    }
    assert HasFields(entries, names) <==> FieldIndex(entries, names[0]) < 2 && FieldIndex(entries, names[1]) < 2;
    if values.Arr? {
      ValuesSay(values.items, f.values);
    }
  }

  // ------------------------------------------------------- the contracts

  function Spot(p: GeoPoint): (real, real) {
    (ValueOf(p.latitude), ValueOf(p.longitude))
  }

  lemma {:induction false} SpotsApart(p: GeoPoint, q: GeoPoint)
    ensures Spot(p) != Spot(q) <==> Elsewhere(p, q)
  {
  }

  lemma {:induction false} DistinctApart(points: seq<GeoPoint>) returns (i: int, j: int, k: int)
    requires |DistinctPoints(points)| >= 3
    ensures Apart(points, i, j, k)
  {
    var spots := DistinctPoints(points);
    ThreeIn(spots);
    var x, y, z :| x in spots && y in spots && z in spots && x != y && x != z && y != z;
    i := At(points, x);
    j := At(points, y);
    k := At(points, z);
    SpotsApart(points[i], points[j]);
    SpotsApart(points[i], points[k]);
    SpotsApart(points[j], points[k]);
  }

  lemma {:induction false} At(points: seq<GeoPoint>, spot: (real, real)) returns (i: int)
    requires spot in DistinctPoints(points)
    ensures 0 <= i < |points| && Spot(points[i]) == spot
  {
    i :| 0 <= i < |points| && spot == Spot(points[i]);
  }

  lemma {:induction false} ApartDistinct(points: seq<GeoPoint>, i: int, j: int, k: int)
    requires Apart(points, i, j, k)
    ensures |DistinctPoints(points)| >= 3
  {
    var spots := DistinctPoints(points);
    SpotsApart(points[i], points[j]);
    SpotsApart(points[i], points[k]);
    SpotsApart(points[j], points[k]);
    assert Spot(points[i]) in spots && Spot(points[j]) in spots && Spot(points[k]) in spots;
    ThreeIn(spots);
  }

  lemma {:induction false} PolygonAllowed(points: seq<GeoPoint>)
    requires forall i :: 0 <= i < |points| ==> AllowedPoint(points[i])
    ensures ValidPolygon(points) <==> AllowedPolygon(points)
  {
    if ValidPolygon(points) {
      var i, j, k := DistinctApart(points);
    }
    if AllowedPolygon(points) {
      var i, j, k :| Apart(points, i, j, k);
      ApartDistinct(points, i, j, k);
    }
  }

  lemma {:induction false} TypeBefore(a: ElementType, b: ElementType)
    ensures TypeLt(a, b) <==> Place(a) < Place(b)
  {
    assert "node"[0] == 'n' && "relation"[0] == 'r' && "way"[0] == 'w';
    StrLtIrreflexive(TypeText(a));
  }

  lemma {:induction false} ListsBefore(a: seq<string>, b: seq<string>)
    ensures ValuesLt(a, b) <==> exists n: nat :: ListBefore(a, b, n)
    decreases |a|
  {
    if b != [] && a != [] {
      ListsBefore(a[1..], b[1..]);
      if a[0] == b[0] && ValuesLt(a[1..], b[1..]) {
        var n: nat :| ListBefore(a[1..], b[1..], n);
        assert a[..n + 1] == [a[0]] + a[1..][..n] && b[..n + 1] == [b[0]] + b[1..][..n];
        assert ListBefore(a, b, n + 1);
      } else if StrLt(a[0], b[0]) {
        assert ListBefore(a, b, 0);
      }
      forall n: nat | ListBefore(a, b, n) ensures ValuesLt(a, b) {
        if n > 0 {
          assert a[0] == a[..n][0] && b[0] == b[..n][0];
          assert a[1..][..n - 1] == a[..n][1..] && b[1..][..n - 1] == b[..n][1..];
          assert ListBefore(a[1..], b[1..], n - 1);
        }
      }
    } else if b != [] {
      assert ListBefore(a, b, 0);
    }
  }

  lemma {:induction false} SpecAllowed(s: Spec)
    requires forall i :: 0 <= i < |s.polygon| ==> AllowedPoint(s.polygon[i])
    requires forall i :: 0 <= i < |s.tagFilters| ==> AllowedFilter(s.tagFilters[i])
    ensures ValidPolygon(s.polygon) && SpecShape(s) <==> Allowed(s)
  {
    PolygonAllowed(s.polygon);
    forall i, j | 0 <= i < j < |s.elementTypes|
      ensures TypeLt(s.elementTypes[i], s.elementTypes[j]) <==> Place(s.elementTypes[i]) < Place(s.elementTypes[j])
    {
      TypeBefore(s.elementTypes[i], s.elementTypes[j]);
    }
    forall i, j | 0 <= i < j < |s.tagFilters|
      ensures FilterLt(s.tagFilters[i], s.tagFilters[j]) <==> FilterBefore(s.tagFilters[i], s.tagFilters[j])
    {
      ListsBefore(s.tagFilters[i].values, s.tagFilters[j].values);
    }
  }

  // ------------------------------------------------------- the whole document

  lemma {:induction false} LoadsUnique(text: string)
    requires Loads(text).Ok? && Loads(text).value.Obj?
    ensures UniqueKeys(Loads(text).value.entries)
  {
    var s := SkipWs(text);
    assert ParseValue(s).Parsed?;
  }

  lemma {:induction false} PointsSay(items: seq<Json>, points: seq<GeoPoint>, fl: Floats)
    ensures Collect(items, PointReader(fl)) == Ok(points) <==>
      && |items| == |points|
      && forall i :: 0 <= i < |items| ==> PointIs(items[i], points[i], fl) && AllowedPoint(points[i])
  {
    CollectSays(items, PointReader(fl), points);
    if |items| == |points| {
      forall i | 0 <= i < |items|
        ensures PointReader(fl)(items[i]) == Ok(points[i]) <==>
          PointIs(items[i], points[i], fl) && AllowedPoint(points[i])
      {
        PointSays(items[i], points[i], fl);
      }
    }
  }

  lemma {:induction false} TypesSay(items: seq<Json>, types: seq<ElementType>)
    ensures Collect(items, TYPE_READER) == Ok(types) <==>
      |items| == |types| && forall i :: 0 <= i < |items| ==> TypeIs(items[i], types[i])
  {
    CollectSays(items, TYPE_READER, types);
    if |items| == |types| {
      forall i | 0 <= i < |items| ensures TYPE_READER(items[i]) == Ok(types[i]) <==> TypeIs(items[i], types[i]) {
        TypeSays(items[i], types[i]);
      }
    }
  }

  lemma {:induction false} FiltersSay(items: seq<Json>, filters: seq<TagFilter>)
    ensures Collect(items, FILTER_READER) == Ok(filters) <==>
      && |items| == |filters|
      && forall i :: 0 <= i < |items| ==> FilterIs(items[i], filters[i]) && AllowedFilter(filters[i])
  {
    CollectSays(items, FILTER_READER, filters);
    if |items| == |filters| {
      forall i | 0 <= i < |items|
        ensures FILTER_READER(items[i]) == Ok(filters[i]) <==>
          FilterIs(items[i], filters[i]) && AllowedFilter(filters[i])
      {
        FilterSays(items[i], filters[i]);
      }
    }
  }

  ghost predicate Present(entries: seq<Member>, name: string) {
    FieldIndex(entries, name) < |entries|
  }

  lemma {:induction false} SixPresent(entries: seq<Member>)
    ensures HasFields(entries, REQUIRED_KEYS) <==>
      && |entries| == 6
      && Present(entries, "schemaRevision") && Present(entries, "polygon") && Present(entries, "elementTypes")
      && Present(entries, "tagFilters") && Present(entries, "timeoutSeconds") && Present(entries, "maximumElements")
  {
    var names := REQUIRED_KEYS;
    assert |names| == 6;
    if HasFields(entries, names) {
      assert Present(entries, names[0]) && Present(entries, names[1]) && Present(entries, names[2]);
      assert Present(entries, names[3]) && Present(entries, names[4]) && Present(entries, names[5]);
    }
  }

  /** The values the reader takes from the six fields, before it looks at them. */
  ghost predicate Taken(
    entries: seq<Member>, points: seq<Json>, types: seq<Json>, filters: seq<Json>, timeout: Json, maximum: Json)
  {
    && HasFields(entries, REQUIRED_KEYS) && Field(entries, "schemaRevision") == Str(REVISION)
    && Field(entries, "polygon") == Arr(points) && Field(entries, "elementTypes") == Arr(types)
    && Field(entries, "tagFilters") == Arr(filters)
    && Field(entries, "timeoutSeconds") == timeout && Field(entries, "maximumElements") == maximum
  }

  lemma {:induction false} TakenIsBound(
    entries: seq<Member>, points: seq<Json>, types: seq<Json>, filters: seq<Json>, timeout: Json, maximum: Json)
    requires UniqueKeys(entries)
    ensures Taken(entries, points, types, filters, timeout, maximum) <==>
      Bound(Obj(entries), points, types, filters, timeout, maximum)
  {
    SixPresent(entries);
    FieldBinds(entries, "schemaRevision", Str(REVISION));
    FieldBinds(entries, "polygon", Arr(points));
    FieldBinds(entries, "elementTypes", Arr(types));
    FieldBinds(entries, "tagFilters", Arr(filters));
    FieldBinds(entries, "timeoutSeconds", timeout);
    FieldBinds(entries, "maximumElements", maximum);
  }

  lemma {:induction false} MembersSay(
    root: seq<Member>, points: seq<Json>, types: seq<Json>, filters: seq<Json>, s: Spec, fl: Floats)
    requires Taken(root, points, types, filters, Field(root, "timeoutSeconds"), Field(root, "maximumElements"))
    ensures ReadMembers(root, fl) == Ok(s) <==>
      && Collect(points, PointReader(fl)) == Ok(s.polygon) && Collect(types, TYPE_READER) == Ok(s.elementTypes)
      && Collect(filters, FILTER_READER) == Ok(s.tagFilters)
      && Field(root, "timeoutSeconds") == Int(s.timeoutSeconds)
      && Field(root, "maximumElements") == Int(s.maximumElements)
      && ValidPolygon(s.polygon) && SpecShape(s)
  {
  }

  ghost predicate PartsAllowed(s: Spec) {
    && (forall i :: 0 <= i < |s.polygon| ==> AllowedPoint(s.polygon[i]))
    && (forall i :: 0 <= i < |s.tagFilters| ==> AllowedFilter(s.tagFilters[i]))
  }

  lemma {:induction false} PartsSay(points: seq<Json>, types: seq<Json>, filters: seq<Json>, s: Spec, fl: Floats)
    ensures PartsAre(points, types, filters, s, fl) && PartsAllowed(s) <==>
      && Collect(points, PointReader(fl)) == Ok(s.polygon) && Collect(types, TYPE_READER) == Ok(s.elementTypes)
      && Collect(filters, FILTER_READER) == Ok(s.tagFilters)
  {
    PointsSay(points, s.polygon, fl);
    TypesSay(types, s.elementTypes);
    FiltersSay(filters, s.tagFilters);
  }

  /** The reader accepts a document as `s` exactly when the document says `s` and `s` is allowed. */
  lemma {:induction false} EntriesSay(
    entries: seq<Member>, points: seq<Json>, types: seq<Json>, filters: seq<Json>, s: Spec, fl: Floats)
    requires UniqueKeys(entries)
    requires Taken(entries, points, types, filters, Field(entries, "timeoutSeconds"), Field(entries, "maximumElements"))
    ensures ReadMembers(entries, fl) == Ok(s) <==>
      SpecIs(Obj(entries), points, types, filters, s, fl) && Allowed(s)
  {
    MembersSay(entries, points, types, filters, s, fl);
    PartsSay(points, types, filters, s, fl);
    TakenIsBound(entries, points, types, filters, Int(s.timeoutSeconds), Int(s.maximumElements));
    if PartsAllowed(s) {
      SpecAllowed(s);
    }
  }

  lemma {:induction false} ReadTakes(entries: seq<Member>, fl: Floats)
    returns (points: seq<Json>, types: seq<Json>, filters: seq<Json>)
    requires HasFields(entries, REQUIRED_KEYS) && Field(entries, "schemaRevision") == Str(REVISION)
    requires ReadMembers(entries, fl).Ok?
    ensures Taken(
      entries, points, types, filters, Field(entries, "timeoutSeconds"), Field(entries, "maximumElements"))
  {
    points := Field(entries, "polygon").items;
    types := Field(entries, "elementTypes").items;
    filters := Field(entries, "tagFilters").items;
  }

  lemma {:induction false} RootSays(entries: seq<Member>, s: Spec, fl: Floats)
    requires UniqueKeys(entries)
    ensures HasFields(entries, REQUIRED_KEYS) && Field(entries, "schemaRevision") == Str(REVISION)
      && ReadMembers(entries, fl) == Ok(s)
      <==> (exists points, types, filters :: SpecIs(Obj(entries), points, types, filters, s, fl)) && Allowed(s)
  {
    if HasFields(entries, REQUIRED_KEYS) && Field(entries, "schemaRevision") == Str(REVISION)
       && ReadMembers(entries, fl) == Ok(s) {
      var points, types, filters := ReadTakes(entries, fl);
      EntriesSay(entries, points, types, filters, s, fl);
    }
    forall points, types, filters | SpecIs(Obj(entries), points, types, filters, s, fl) && Allowed(s)
      ensures HasFields(entries, REQUIRED_KEYS) && Field(entries, "schemaRevision") == Str(REVISION)
      ensures ReadMembers(entries, fl) == Ok(s)
    {
      TakenIsBound(entries, points, types, filters, Int(s.timeoutSeconds), Int(s.maximumElements));
      EntriesSay(entries, points, types, filters, s, fl);
    }
  }

  /** Of all bodies, the decoder accepts exactly those whose document says an allowed specification,
      and it answers that specification. */
  lemma {:induction false} DecodeSays(body: seq<Byte>, s: Spec, fl: Floats)
    ensures DecodeSpec(body, fl) == Ok(s) <==> Says(body, s, fl) && Allowed(s)
  {
    if |body| <= MAX_INPUT_BYTES && DecodeSig(body).Some? {
      var text := DecodeSig(body).value;
      if Loads(text).Ok? && Loads(text).value.Obj? {
        LoadsUnique(text);
        RootSays(Loads(text).value.entries, s, fl);
      }
    }
  }
}
