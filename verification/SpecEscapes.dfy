/**
  Which error a query specification gets from `decode_query_spec`
  (connectors/osm_overpass/src/osm_overpass/input.py), and when that is not the decoder's own: an
  OverflowError, the TypeError of an element type that cannot be looked up in a set, or the
  ValueError of a constructor that refuses its arguments.
 */
module SpecEscapes {
  import opened Text
  import opened Utf8
  import opened Json
  import opened CanonicalJson
  import opened Floats
  import opened JsonLayout
  import opened OverpassContracts
  import opened OverpassSpec
  import opened SpecDocuments

  /** Not an OverpassResponseError. */
  predicate Foreign(e: Error) {
    || e == Overflow || e == Unhashable
    || e == PointContract || e == FilterContract || e == PolygonContract || e == SpecContract
  }

  // ------------------------------------------------------ the first bad item

  /** Everything before item `i` is accepted, and item `i` is bad. */
  ghost predicate FirstBad<T>(items: seq<Json>, one: Json -> Result<T, Error>, bad: Json -> bool, i: nat) {
    i < |items| && Collect(items[..i], one).Ok? && bad(items[i])
  }

  lemma {:induction false} CollectPrefix<T>(items: seq<Json>, one: Json -> Result<T, Error>, i: nat)
    requires 1 <= i <= |items|
    ensures one(items[0]).Err? ==> Collect(items[..i], one).Err?
    ensures one(items[0]).Ok? ==>
      Collect(items[..i], one) == Prepend([one(items[0]).value], Collect(items[1..][..i - 1], one))
  {
    assert items[..i][0] == items[0] && items[..i][1..] == items[1..][..i - 1];
  }

  /** A list fails with `e` exactly when its first item that is not accepted does. */
  lemma {:induction false} CollectFails<T>(
    items: seq<Json>, one: Json -> Result<T, Error>, e: Error, bad: Json -> bool)
    requires forall v :: one(v) == Err(e) <==> bad(v)
    ensures Collect(items, one) == Err(e) <==> exists i: nat :: FirstBad(items, one, bad, i)
    decreases |items|
  {
    if items != [] {
      assert items[..0] == [];
      assert FirstBad(items, one, bad, 0) <==> one(items[0]) == Err(e);
      if one(items[0]).Err? {
        forall i: nat | 1 <= i ensures !FirstBad(items, one, bad, i) {
          if i <= |items| {
            CollectPrefix(items, one, i);
          }
        }
      } else {
        CollectFails(items[1..], one, e, bad);
        forall i: nat ensures FirstBad(items, one, bad, i + 1) <==> FirstBad(items[1..], one, bad, i) {
          if i < |items| - 1 {
            CollectPrefix(items, one, i + 1);
          }
        }
        Shifted(items, one, bad);
      }
    }
  }

  lemma {:induction false} Shifted<T>(items: seq<Json>, one: Json -> Result<T, Error>, bad: Json -> bool)
    requires items != [] && !FirstBad(items, one, bad, 0)
    requires forall i: nat :: FirstBad(items, one, bad, i + 1) <==> FirstBad(items[1..], one, bad, i)
    ensures (exists i: nat :: FirstBad(items, one, bad, i)) <==> (exists i: nat :: FirstBad(items[1..], one, bad, i))
  {
    if i: nat :| FirstBad(items, one, bad, i) {
      assert FirstBad(items, one, bad, (i - 1) + 1);
      assert FirstBad(items[1..], one, bad, i - 1);
    }
    if i: nat :| FirstBad(items[1..], one, bad, i) {
      assert FirstBad(items, one, bad, i + 1);
    }
  }

  /** No list, or the first bad item of one. */
  ghost predicate ListRefused<T>(
    v: Json, one: Json -> Result<T, Error>, bad: Json -> bool, notList: Error, e: Error)
  {
    if !v.Arr? then e == notList else exists i: nat :: FirstBad(v.items, one, bad, i)
  }

  lemma {:induction false} ReadListFails<T>(
    v: Json, one: Json -> Result<T, Error>, bad: Json -> bool, notList: Error, e: Error)
    requires forall w :: one(w) == Err(e) <==> bad(w)
    ensures ReadList(v, one, notList) == Err(e) <==> ListRefused(v, one, bad, notList, e)
  {
    if v.Arr? {
      CollectFails(v.items, one, e, bad);
    }
  }

  // --------------------------------------------------------------- the items

  /** An integer `float` cannot hold overflows, anything else without a finite double is invalid. */
  ghost predicate NumberRefused(v: Json, fl: Floats, e: Error) {
    if v.Int? && fl.ofInt(v.n) == None then e == Overflow
    else (forall d :: !NumberIs(v, d, fl)) && e == CoordinateInvalid
  }

  /** Shape, latitude, longitude, and the range of the point they make. */
  ghost predicate PointRefused(v: Json, fl: Floats, e: Error) {
    if !v.Arr? || |v.items| != 2 then e == PolygonInvalid
    else
      || NumberRefused(v.items[0], fl, e)
      || (exists d :: NumberIs(v.items[0], d, fl) && NumberRefused(v.items[1], fl, e))
      || (exists p :: PointIs(v, p, fl) && !AllowedPoint(p) && e == PointContract)
  }

  /** A list or an object cannot be looked up; any other value must name a type. */
  ghost predicate TypeRefused(v: Json, e: Error) {
    if v.Arr? || v.Obj? then e == Unhashable
    else v !in {Str("node"), Str("way"), Str("relation")} && e == ElementTypesInvalid
  }

  /** Two fields, a text and a list of texts, and the filter they make. */
  ghost predicate FilterRefused(v: Json, e: Error) {
    if !v.Obj? then e == ObjectInvalid
    else if exists f :: FilterIs(v, f) then (exists f :: FilterIs(v, f) && !AllowedFilter(f)) && e == FilterContract
    else e == TagFilterInvalid
  }

  lemma {:induction false} NumberFails(v: Json, fl: Floats, e: Error)
    ensures NumberAt(v, fl) == Err(e) <==> NumberRefused(v, fl, e)
  {
    var r := NumberAt(v, fl);
    if r.Ok? {
      NumberSays(v, r.value, fl);
    } else {
      forall d ensures !NumberIs(v, d, fl) {
        NumberSays(v, d, fl);
      }
    }
  }

  lemma {:induction false} PointFails(v: Json, fl: Floats, e: Error)
    ensures PointAt(v, fl) == Err(e) <==> PointRefused(v, fl, e)
  {
    if v.Arr? && |v.items| == 2 {
      NumberFails(v.items[0], fl, e);
      NumberFails(v.items[1], fl, e);
      forall d ensures NumberAt(v.items[0], fl) == Ok(d) <==> NumberIs(v.items[0], d, fl) {
        NumberSays(v.items[0], d, fl);
      }
      forall d ensures NumberAt(v.items[1], fl) == Ok(d) <==> NumberIs(v.items[1], d, fl) {
        NumberSays(v.items[1], d, fl);
      }
      var a, b := NumberAt(v.items[0], fl), NumberAt(v.items[1], fl);
      if a.Ok? && b.Ok? {
        assert PointIs(v, GeoPoint(a.value, b.value), fl);
      }
    }
  }

  lemma {:induction false} TypeRefusals(v: Json, e: Error)
    ensures TypeAt(v) == Err(e) <==> TypeRefused(v, e)
  {
    assert |"node"| == 4 && |"way"| == 3 && |"relation"| == 8;
  }

  lemma {:induction false} ValuesRefused(items: seq<Json>)
    ensures Collect(items, VALUE_READER).Err? ==> Collect(items, VALUE_READER) == Err(TagFilterInvalid)
    decreases |items|
  {
    if items != [] {
      ValuesRefused(items[1..]);
    }
  }

  lemma {:induction false} FilterRefusals(v: Json, e: Error)
    ensures FilterAt(v) == Err(e) <==> FilterRefused(v, e)
  {
    if v.Obj? {
      forall f ensures FilterTaken(v.entries, f) <==> FilterIs(v, f) {
        FilterTakenIs(v.entries, f);
      }
      forall f ensures ValidFilter(f) <==> AllowedFilter(f) {
        FilterAllowed(f);
      }
      TakenOrNot(v.entries);
    }
  }

  lemma {:induction false} TakenOrNot(entries: seq<Member>)
    ensures forall f :: FilterTaken(entries, f) ==>
      FilterAt(Obj(entries)) == if ValidFilter(f) then Ok(f) else Err(FilterContract)
    ensures (forall f :: !FilterTaken(entries, f)) ==> FilterAt(Obj(entries)) == Err(TagFilterInvalid)
  {
    if HasFields(entries, ["key", "values"]) {
      var key, values := Field(entries, "key"), Field(entries, "values");
      if key.Str? && values.Arr? {
        ValuesRefused(values.items);
        var texts := Collect(values.items, VALUE_READER);
        if texts.Ok? {
          assert FilterTaken(entries, TagFilter(key.s, texts.value));
        }
      }
    }
  }

  // ------------------------------------------------------- the whole document

  ghost function PointBad(fl: Floats, e: Error): Json -> bool {
    (v: Json) => PointRefused(v, fl, e)
  }

  ghost function TypeBad(e: Error): Json -> bool {
    (v: Json) => TypeRefused(v, e)
  }

  ghost function FilterBad(e: Error): Json -> bool {
    (v: Json) => FilterRefused(v, e)
  }

  /** The constructors of polygon and specification, with the two integers between them. */
  ghost predicate AssemblyRefused(
    points: seq<GeoPoint>, types: seq<ElementType>, filters: seq<TagFilter>, timeout: Json, maximum: Json, e: Error)
  {
    if !AllowedPolygon(points) then e == PolygonContract
    else if !timeout.Int? || !maximum.Int? then e == IntegerInvalid
    else !Allowed(Spec(points, types, filters, timeout.n, maximum.n)) && e == SpecContract
  }

  lemma {:induction false} AssemblyFails(
    points: seq<GeoPoint>, types: seq<ElementType>, filters: seq<TagFilter>, timeout: Json, maximum: Json, e: Error)
    requires forall i :: 0 <= i < |points| ==> AllowedPoint(points[i])
    requires forall i :: 0 <= i < |filters| ==> AllowedFilter(filters[i])
    ensures Assemble(points, types, filters, timeout, maximum) == Err(e)
      <==> AssemblyRefused(points, types, filters, timeout, maximum, e)
  {
    PolygonAllowed(points);
    if timeout.Int? && maximum.Int? {
      SpecAllowed(Spec(points, types, filters, timeout.n, maximum.n));
    }
  }

  /** Polygon, types and filters in this order, each by its first bad item, and then their assembly. */
  ghost predicate MembersRefused(root: seq<Member>, fl: Floats, e: Error) {
    var points := ReadList(Field(root, "polygon"), PointReader(fl), PolygonInvalid);
    var types := ReadList(Field(root, "elementTypes"), TYPE_READER, ElementTypesInvalid);
    var filters := ReadList(Field(root, "tagFilters"), FILTER_READER, TagFiltersInvalid);
    || ListRefused(Field(root, "polygon"), PointReader(fl), PointBad(fl, e), PolygonInvalid, e)
    || (points.Ok? && ListRefused(Field(root, "elementTypes"), TYPE_READER, TypeBad(e), ElementTypesInvalid, e))
    || (points.Ok? && types.Ok?
        && ListRefused(Field(root, "tagFilters"), FILTER_READER, FilterBad(e), TagFiltersInvalid, e))
    || (points.Ok? && types.Ok? && filters.Ok? && AssemblyRefused(
          points.value, types.value, filters.value,
          Field(root, "timeoutSeconds"), Field(root, "maximumElements"), e))
  }

  /** Four readings one after another. */
  function InTurn<A, B, C, R>(
    a: Result<A, Error>, b: Result<B, Error>, c: Result<C, Error>, r: Result<R, Error>): Result<R, Error>
  {
    if a.Err? then Err(a.error) else if b.Err? then Err(b.error) else if c.Err? then Err(c.error) else r
  }

  lemma {:induction false} InTurnFails<A, B, C, R>(
    a: Result<A, Error>, b: Result<B, Error>, c: Result<C, Error>, r: Result<R, Error>, e: Error)
    ensures InTurn(a, b, c, r) == Err(e) <==>
      || a == Err(e) || (a.Ok? && b == Err(e)) || (a.Ok? && b.Ok? && c == Err(e))
      || (a.Ok? && b.Ok? && c.Ok? && r == Err(e))
  {
  }

  lemma {:induction false} ReadPartsAllowed(root: seq<Member>, fl: Floats)
    ensures var points := ReadList(Field(root, "polygon"), PointReader(fl), PolygonInvalid);
      points.Ok? ==> forall i :: 0 <= i < |points.value| ==> AllowedPoint(points.value[i])
    ensures var filters := ReadList(Field(root, "tagFilters"), FILTER_READER, TagFiltersInvalid);
      filters.Ok? ==> forall i :: 0 <= i < |filters.value| ==> AllowedFilter(filters.value[i])
  {
    var points := ReadList(Field(root, "polygon"), PointReader(fl), PolygonInvalid);
    if points.Ok? {
      PointsSay(Field(root, "polygon").items, points.value, fl);
    }
    var filters := ReadList(Field(root, "tagFilters"), FILTER_READER, TagFiltersInvalid);
    if filters.Ok? {
      FiltersSay(Field(root, "tagFilters").items, filters.value);
    }
  }

  lemma {:induction false} ListsFail(root: seq<Member>, fl: Floats, e: Error)
    ensures ReadList(Field(root, "polygon"), PointReader(fl), PolygonInvalid) == Err(e) <==>
      ListRefused(Field(root, "polygon"), PointReader(fl), PointBad(fl, e), PolygonInvalid, e)
    ensures ReadList(Field(root, "elementTypes"), TYPE_READER, ElementTypesInvalid) == Err(e) <==>
      ListRefused(Field(root, "elementTypes"), TYPE_READER, TypeBad(e), ElementTypesInvalid, e)
    ensures ReadList(Field(root, "tagFilters"), FILTER_READER, TagFiltersInvalid) == Err(e) <==>
      ListRefused(Field(root, "tagFilters"), FILTER_READER, FilterBad(e), TagFiltersInvalid, e)
  {
    forall v: Json ensures PointReader(fl)(v) == Err(e) <==> PointBad(fl, e)(v) {
      PointFails(v, fl, e);
    }
    forall v: Json ensures TYPE_READER(v) == Err(e) <==> TypeBad(e)(v) {
      TypeRefusals(v, e);
    }
    forall v: Json ensures FILTER_READER(v) == Err(e) <==> FilterBad(e)(v) {
      FilterRefusals(v, e);
    }
    ReadListFails(Field(root, "polygon"), PointReader(fl), PointBad(fl, e), PolygonInvalid, e);
    ReadListFails(Field(root, "elementTypes"), TYPE_READER, TypeBad(e), ElementTypesInvalid, e);
    ReadListFails(Field(root, "tagFilters"), FILTER_READER, FilterBad(e), TagFiltersInvalid, e);
  }

  /** The fields are refused exactly for the first thing wrong with them. */
  lemma {:induction false} MembersFail(root: seq<Member>, fl: Floats, e: Error)
    ensures ReadMembers(root, fl) == Err(e) <==> MembersRefused(root, fl, e)
  {
    var points := ReadList(Field(root, "polygon"), PointReader(fl), PolygonInvalid);
    var types := ReadList(Field(root, "elementTypes"), TYPE_READER, ElementTypesInvalid);
    var filters := ReadList(Field(root, "tagFilters"), FILTER_READER, TagFiltersInvalid);
    var timeout, maximum := Field(root, "timeoutSeconds"), Field(root, "maximumElements");
    ListsFail(root, fl, e);
    ReadPartsAllowed(root, fl);
    var last: Result<Spec, Error> :=
      if points.Ok? && types.Ok? && filters.Ok? then
        Assemble(points.value, types.value, filters.value, timeout, maximum)
      else Err(TooLarge);
    if points.Ok? && types.Ok? && filters.Ok? {
      AssemblyFails(points.value, types.value, filters.value, timeout, maximum, e);
    }
    assert ReadMembers(root, fl) == InTurn(points, types, filters, last);
    InTurnFails(points, types, filters, last, e);
  }

  /** Size, encoding, syntax, shape, fields and revision are checked in this order, before any field is read. */
  lemma {:induction false} BodyRefusals(body: seq<Byte>)
    ensures var r := ReadRoot(body);
      if |body| > 4 * 1024 * 1024 then r == Err(TooLarge)
      else if DecodeSig(body) == None then r == Err(EncodingInvalid)
      else
        match Loads(DecodeSig(body).value)
        case Err(Syntax) => r == Err(JsonInvalid)
        case Err(DuplicateKey) => r == Err(DuplicateJsonKey)
        case Err(NonFinite) => r == Err(NonFiniteNumber)
        case Ok(root) =>
          if !root.Obj? then r == Err(ObjectInvalid)
          else if !SixFieldsOnly(root.entries) then r == Err(FieldsInvalid)
          else if !Binds(root, "schemaRevision", Str("osm-overpass-query/1")) then r == Err(RevisionUnsupported)
          else r == Ok(root.entries)
  {
    if |body| <= MAX_INPUT_BYTES && DecodeSig(body).Some? {
      var text := DecodeSig(body).value;
      if Loads(text).Ok? && Loads(text).value.Obj? {
        LoadsUnique(text);
        var entries := Loads(text).value.entries;
        SixPresent(entries);
        FieldBinds(entries, "schemaRevision", Str(REVISION));
      }
    }
  }

  ghost predicate SixFieldsOnly(entries: seq<Member>) {
    && |entries| == 6
    && Present(entries, "schemaRevision") && Present(entries, "polygon") && Present(entries, "elementTypes")
    && Present(entries, "tagFilters") && Present(entries, "timeoutSeconds") && Present(entries, "maximumElements")
  }

  /** A document whose text, fields and revision pass and whose first fault after that is one on which
      a library or a constructor raises. */
  ghost predicate Escapes(body: seq<Byte>, fl: Floats) {
    ReadRoot(body).Ok? && exists e :: Foreign(e) && MembersRefused(ReadRoot(body).value, fl, e)
  }

  /** Decoding raises something other than its own error exactly for such documents. */
  lemma {:induction false} DecodeEscapes(body: seq<Byte>, fl: Floats)
    ensures (exists e :: Foreign(e) && DecodeSpec(body, fl) == Err(e)) <==> Escapes(body, fl)
  {
    if ReadRoot(body).Ok? {
      forall e ensures ReadMembers(ReadRoot(body).value, fl) == Err(e)
        <==> MembersRefused(ReadRoot(body).value, fl, e) {
        MembersFail(ReadRoot(body).value, fl, e);
      }
    }
  }

  /** A document without a single point makes a constructor raise a plain ValueError. */
  lemma {:induction false} EmptyPolygon(fl: Floats, body: seq<Byte>, root: seq<Member>)
    requires root == Members(Arr([]), Int(1), Arr([]), Str(REVISION), Arr([]), Int(1))
    requires body == CanonicalBytes(Obj(root))
    ensures DecodeSpec(body, fl) == Err(PolygonContract)
  {
    PlainArr([]);
    ArrSize([]);
    IntSize(1);
    TextSize(REVISION);
    assert |REVISION| == 20;
    MembersSize(Arr([]), Int(1), Arr([]), Str(REVISION), Arr([]), Int(1));
    MembersPlain(Arr([]), Int(1), Arr([]), Str(REVISION), Arr([]), Int(1));
    MembersFields(Arr([]), Int(1), Arr([]), Str(REVISION), Arr([]), Int(1));
    RootReadsBack(root);
  }
}
