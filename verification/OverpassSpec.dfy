/**
  The query specification document: written by the planner
  (connectors/osm_overpass/src/osm_overpass/planning.py, `_query_spec_bytes`) and read by the
  worker (connectors/osm_overpass/src/osm_overpass/input.py, `decode_query_spec`).
 */
module OverpassSpec {
  import opened Text
  import opened Utf8
  import opened Json
  import opened CanonicalJson
  import opened Floats
  import opened JsonLayout
  import opened OverpassContracts

  const REVISION := "osm-overpass-query/1"
  const MAX_INPUT_BYTES := 4 * 1024 * 1024

  /** The `...Contract` errors are ValueErrors of the constructors. */
  datatype Error =
    | TooLarge | EncodingInvalid | JsonInvalid | DuplicateJsonKey | NonFiniteNumber
    | ObjectInvalid | FieldsInvalid | RevisionUnsupported
    | PolygonInvalid | CoordinateInvalid | Overflow | PointContract
    | ElementTypesInvalid | Unhashable
    | TagFiltersInvalid | TagFilterInvalid | FilterContract
    | PolygonContract | IntegerInvalid | SpecContract

  // ----------------------------------------------------------------- writing

  function PointPrinter(fl: Floats): GeoPoint -> Json {
    (p: GeoPoint) => Arr([Float(fl.repr(p.latitude)), Float(fl.repr(p.longitude))])
  }

  const TYPE_PRINTER: ElementType -> Json := (t: ElementType) => Str(TypeText(t))
  const VALUE_PRINTER: string -> Json := (v: string) => Str(v)
  const FILTER_PRINTER: TagFilter -> Json := (f: TagFilter) => FilterJson(f)

  function FilterJson(f: TagFilter): Json {
    Obj([Member("key", Str(f.key)), Member("values", Arr(MapJson(f.values, VALUE_PRINTER)))])
  }

  /** The six members of a query specification document. */
  function Members(
    types: Json, maximum: Json, polygon: Json, revision: Json, filters: Json, timeout: Json): seq<Member> {
    [ Member("elementTypes", types), Member("maximumElements", maximum), Member("polygon", polygon),
      Member("schemaRevision", revision), Member("tagFilters", filters), Member("timeoutSeconds", timeout) ]
  }

  function SpecMembers(s: Spec, fl: Floats): seq<Member> {
    Members(
      Arr(MapJson(s.elementTypes, TYPE_PRINTER)),
      Int(s.maximumElements),
      Arr(MapJson(s.polygon, PointPrinter(fl))),
      Str(REVISION),
      Arr(MapJson(s.tagFilters, FILTER_PRINTER)),
      Int(s.timeoutSeconds))
  }

  /** `_query_spec_bytes`. */
  function SpecBytes(s: Spec, fl: Floats): seq<Byte> {
    CanonicalBytes(Obj(SpecMembers(s, fl)))
  }

  // ----------------------------------------------------------------- reading

  function Collect<T>(items: seq<Json>, one: Json -> Result<T, Error>): Result<seq<T>, Error> {
    if items == [] then Ok([])
    else
      match one(items[0])
      case Err(e) => Err(e)
      case Ok(x) => Prepend([x], Collect(items[1..], one))
  }

  function Prepend<T>(front: seq<T>, rest: Result<seq<T>, Error>): Result<seq<T>, Error> {
    match rest
    case Err(e) => Err(e)
    case Ok(xs) => Ok(front + xs)
  }

  /** `_number`. */
  function NumberAt(v: Json, fl: Floats): Result<Double, Error> {
    match v
    case Int(n) =>
      (match fl.ofInt(n)
       case None => Err(Overflow)
       case Some(d) => if d.Finite? then Ok(d) else Err(CoordinateInvalid))
    case Float(t) => if fl.ofToken(t).Finite? then Ok(fl.ofToken(t)) else Err(CoordinateInvalid)
    case _ => Err(CoordinateInvalid)
  }

  function PointAt(v: Json, fl: Floats): Result<GeoPoint, Error> {
    if !v.Arr? || |v.items| != 2 then Err(PolygonInvalid)
    else
      match NumberAt(v.items[0], fl)
      case Err(e) => Err(e)
      case Ok(latitude) =>
        match NumberAt(v.items[1], fl)
        case Err(e) => Err(e)
        case Ok(longitude) =>
          if ValidPoint(GeoPoint(latitude, longitude)) then Ok(GeoPoint(latitude, longitude)) else Err(PointContract)
  }

  function PointReader(fl: Floats): Json -> Result<GeoPoint, Error> {
    (v: Json) => PointAt(v, fl)
  }

  function TypeAt(v: Json): Result<ElementType, Error> {
    match v
    case Str(s) =>
      if s == "node" then Ok(Node) else if s == "way" then Ok(Way) else if s == "relation" then Ok(Relation)
      else Err(ElementTypesInvalid)
    case Arr(_) => Err(Unhashable)
    case Obj(_) => Err(Unhashable)
    case _ => Err(ElementTypesInvalid)
  }

  const TYPE_READER: Json -> Result<ElementType, Error> := (v: Json) => TypeAt(v)

  function ValueAt(v: Json): Result<string, Error> {
    if v.Str? then Ok(v.s) else Err(TagFilterInvalid)
  }

  const VALUE_READER: Json -> Result<string, Error> := (v: Json) => ValueAt(v)

  /** `set(item) == {...}` for a dictionary, whose keys are unique. */
  predicate HasFields(entries: seq<Member>, names: seq<string>) {
    |entries| == |names| && forall i :: 0 <= i < |names| ==> FieldIndex(entries, names[i]) < |entries|
  }

  function Field(entries: seq<Member>, name: string): Json {
    var i := FieldIndex(entries, name);
    if i < |entries| then entries[i].value else Null
  }

  function FilterAt(v: Json): Result<TagFilter, Error> {
    if !v.Obj? then Err(ObjectInvalid)
    else if !HasFields(v.entries, ["key", "values"]) then Err(TagFilterInvalid)
    else
      var key, values := Field(v.entries, "key"), Field(v.entries, "values");
      if !key.Str? || !values.Arr? then Err(TagFilterInvalid)
      else
        match Collect(values.items, VALUE_READER)
        case Err(e) => Err(e)
        case Ok(texts) =>
          if ValidFilter(TagFilter(key.s, texts)) then Ok(TagFilter(key.s, texts)) else Err(FilterContract)
  }

  const FILTER_READER: Json -> Result<TagFilter, Error> := (v: Json) => FilterAt(v)

  const REQUIRED_KEYS :=
    ["schemaRevision", "polygon", "elementTypes", "tagFilters", "timeoutSeconds", "maximumElements"]

  function JsonError(w: Failure): Error {
    match w
    case Syntax => JsonInvalid
    case DuplicateKey => DuplicateJsonKey
    case NonFinite => NonFiniteNumber
  }

  /** Everything up to the dictionary of the six required fields. */
  function ReadRoot(body: seq<Byte>): Result<seq<Member>, Error> {
    if |body| > MAX_INPUT_BYTES then Err(TooLarge)
    else
      match DecodeSig(body)
      case None => Err(EncodingInvalid)
      case Some(text) =>
        match Loads(text)
        case Err(w) => Err(JsonError(w))
        case Ok(root) =>
          if !root.Obj? then Err(ObjectInvalid)
          else if !HasFields(root.entries, REQUIRED_KEYS) then Err(FieldsInvalid)
          else if Field(root.entries, "schemaRevision") != Str(REVISION) then Err(RevisionUnsupported)
          else Ok(root.entries)
  }

  function ReadList<T>(v: Json, one: Json -> Result<T, Error>, notList: Error): Result<seq<T>, Error> {
    if !v.Arr? then Err(notList) else Collect(v.items, one)
  }

  /** The final constructor calls. */
  function Assemble(
    points: seq<GeoPoint>, types: seq<ElementType>, filters: seq<TagFilter>, timeout: Json, maximum: Json)
    : Result<Spec, Error>
  {
    if !ValidPolygon(points) then Err(PolygonContract)
    else if !timeout.Int? || !maximum.Int? then Err(IntegerInvalid)
    else
      var s := Spec(points, types, filters, timeout.n, maximum.n);
      if SpecShape(s) then Ok(s) else Err(SpecContract)
  }

  function ReadMembers(root: seq<Member>, fl: Floats): Result<Spec, Error> {
    match ReadList(Field(root, "polygon"), PointReader(fl), PolygonInvalid)
    case Err(e) => Err(e)
    case Ok(points) =>
      match ReadList(Field(root, "elementTypes"), TYPE_READER, ElementTypesInvalid)
      case Err(e) => Err(e)
      case Ok(types) =>
        match ReadList(Field(root, "tagFilters"), FILTER_READER, TagFiltersInvalid)
        case Err(e) => Err(e)
        case Ok(filters) =>
          Assemble(points, types, filters, Field(root, "timeoutSeconds"), Field(root, "maximumElements"))
  }

  /** `decode_query_spec` as a function. */
  function DecodeSpec(body: seq<Byte>, fl: Floats): Result<Spec, Error> {
    match ReadRoot(body)
    case Err(e) => Err(e)
    case Ok(root) => ReadMembers(root, fl)
  }

  lemma {:induction false} PrependNothing<T>(rest: Result<seq<T>, Error>)
    ensures Prepend([], rest) == rest
  {
    if rest.Ok? {
      assert [] + rest.value == rest.value;
    }
  }

  /** One of the decoder's loops: append each converted item, stop at the first error. */
  method CollectItems<T>(items: seq<Json>, one: Json -> Result<T, Error>) returns (r: Result<seq<T>, Error>)
    ensures r == Collect(items, one)
  {
    var xs: seq<T> := [];
    assert items[0..] == items;
    PrependNothing(Collect(items, one));
    for i := 0 to |items|
      invariant Collect(items, one) == Prepend(xs, Collect(items[i..], one))
    {
      assert items[i..][1..] == items[i + 1..];
      var x := one(items[i]);
      if x.Err? {
        return Err(x.error);
      }
      ghost var rest := Collect(items[i + 1..], one);
      assert rest.Ok? ==> xs + ([x.value] + rest.value) == xs + [x.value] + rest.value;
      xs := xs + [x.value];
    }
    assert xs + [] == xs;
    return Ok(xs);
  }

  /** `decode_query_spec` as the code runs. */
  method Decode(body: seq<Byte>, fl: Floats) returns (r: Result<Spec, Error>)
    ensures r == DecodeSpec(body, fl)
  {
    var read := ReadRoot(body);
    if read.Err? {
      return Err(read.error);
    }
    var root := read.value;
    var polygon := Field(root, "polygon");
    if !polygon.Arr? {
      return Err(PolygonInvalid);
    }
    var points := CollectItems(polygon.items, PointReader(fl));
    if points.Err? {
      return Err(points.error);
    }
    var elementTypes := Field(root, "elementTypes");
    if !elementTypes.Arr? {
      return Err(ElementTypesInvalid);
    }
    var types := CollectItems(elementTypes.items, TYPE_READER);
    if types.Err? {
      return Err(types.error);
    }
    var tagFilters := Field(root, "tagFilters");
    if !tagFilters.Arr? {
      return Err(TagFiltersInvalid);
    }
    var filters := CollectItems(tagFilters.items, FILTER_READER);
    if filters.Err? {
      return Err(filters.error);
    }
    return Assemble(points.value, types.value, filters.value,
                    Field(root, "timeoutSeconds"), Field(root, "maximumElements"));
  }

  // ---------------------------------------------- each part reads back alone

  lemma {:induction false} CollectReadsBack<T>(xs: seq<T>, one: Json -> Result<T, Error>, print1: T -> Json)
    requires forall i :: 0 <= i < |xs| ==> one(print1(xs[i])) == Ok(xs[i])
    ensures Collect(MapJson(xs, print1), one) == Ok(xs)
  {
    if xs != [] {
      CollectReadsBack(xs[1..], one, print1);
      assert MapJson(xs, print1)[1..] == MapJson(xs[1..], print1);
      assert xs == [xs[0]] + xs[1..];
    }
  }

  lemma {:induction false} NumberReadsBack(d: Double, fl: Floats)
    requires Sound(fl) && d.Finite? && fl.isDouble(d)
    ensures NumberAt(Float(fl.repr(d)), fl) == Ok(d)
    ensures Plain(Float(fl.repr(d))) && Size(Float(fl.repr(d))) <= 24
  {
    assert ReprReadsBack(d, fl);
    TokenAscii(fl.repr(d));
    OneByte(fl.repr(d));
  }

  lemma {:induction false} PointReadsBack(p: GeoPoint, fl: Floats)
    requires Sound(fl) && ValidPoint(p) && fl.isDouble(p.latitude) && fl.isDouble(p.longitude)
    ensures PointReader(fl)(PointPrinter(fl)(p)) == Ok(p)
    ensures Plain(PointPrinter(fl)(p)) && Size(PointPrinter(fl)(p)) <= 51
  {
    NumberReadsBack(p.latitude, fl);
    NumberReadsBack(p.longitude, fl);
    PairOfNumbers(Float(fl.repr(p.latitude)), Float(fl.repr(p.longitude)));
  }

  lemma {:induction false} PairOfNumbers(a: Json, b: Json)
    requires Plain(a) && Plain(b) && Size(a) <= 24 && Size(b) <= 24
    ensures Plain(Arr([a, b])) && Size(Arr([a, b])) <= 51
  {
    var items := [a, b];
    PlainArr(items);
    ArrSize(items);
    ItemsSize(items);
    assert items[1..] == [b];
    assert RenderItems(items[1..]) == Render(b);
  }

  lemma {:induction false} TypeReadsBack(t: ElementType)
    ensures TYPE_READER(TYPE_PRINTER(t)) == Ok(t)
    ensures Plain(TYPE_PRINTER(t)) && Size(TYPE_PRINTER(t)) <= 50
  {
    TypeTextReads(t);
    TextSize(TypeText(t));
  }

  lemma {:induction false} TypeTextReads(t: ElementType)
    ensures TypeAt(Str(TypeText(t))) == Ok(t) && |TypeText(t)| <= 8
  {
    assert |"node"| == 4 && |"way"| == 3 && |"relation"| == 8;
  }

  lemma {:induction false} FilterFields(a: Json, b: Json)
    ensures var es := [Member("key", a), Member("values", b)];
      && UniqueKeys(es) && FieldIndex(es, "key") == 0 && FieldIndex(es, "values") == 1
      && HasFields(es, ["key", "values"]) && KeyLe(es[0], es[1])
  {
    var es := [Member("key", a), Member("values", b)];
    assert |"key"| == 3 && |"values"| == 6 && "key"[0] == 'k' && "values"[0] == 'v';
    assert FieldIndex(es, "key") == 0;
    assert es[1..] == [Member("values", b)];
    assert FieldIndex(es, "values") == 1 + FieldIndex(es[1..], "values");
  }

  lemma {:induction false} ValuesReadBack(values: seq<string>)
    requires |values| <= 100 && forall i :: 0 <= i < |values| ==> |values[i]| <= 255
    ensures Collect(MapJson(values, VALUE_PRINTER), VALUE_READER) == Ok(values)
    ensures Plain(Arr(MapJson(values, VALUE_PRINTER)))
    ensures Size(Arr(MapJson(values, VALUE_PRINTER))) <= 153_302
  {
    CollectReadsBack(values, VALUE_READER, VALUE_PRINTER);
    PlainMap(values, VALUE_PRINTER);
    forall i | 0 <= i < |values| ensures Size(VALUE_PRINTER(values[i])) + 1 <= 1_533 {
      TextSize(values[i]);
    }
    ListSize(values, VALUE_PRINTER, 1_533);
  }

  lemma {:induction false} FilterOf(v: Json, f: TagFilter, values: seq<Json>)
    requires v.Obj? && HasFields(v.entries, ["key", "values"]) && ValidFilter(f)
    requires Field(v.entries, "key") == Str(f.key) && Field(v.entries, "values") == Arr(values)
    requires Collect(values, VALUE_READER) == Ok(f.values)
    ensures FilterAt(v) == Ok(f)
  {
  }

  lemma {:induction false} FilterSize(key: string, values: Json)
    requires |key| <= 255 && Size(values) <= 153_302
    ensures Size(Obj([Member("key", Str(key)), Member("values", values)])) <= 155_100
  {
    TextSize(key);
    assert |"key"| == 3 && |"values"| == 6;
    PairSize(Member("key", Str(key)), Member("values", values));
  }

  lemma {:induction false} FilterReadsBack(f: TagFilter)
    requires ValidFilter(f)
    ensures FILTER_READER(FILTER_PRINTER(f)) == Ok(f)
    ensures Plain(FILTER_PRINTER(f)) && Size(FILTER_PRINTER(f)) <= 155_100
  {
    ValuesReadBack(f.values);
    var values := MapJson(f.values, VALUE_PRINTER);
    FilterFields(Str(f.key), Arr(values));
    FilterOf(FilterJson(f), f, values);
    PlainPair(Member("key", Str(f.key)), Member("values", Arr(values)));
    FilterSize(f.key, Arr(values));
  }

  // ------------------------------------------------------ the whole document

  lemma {:induction false} KeyOrder()
    ensures StrLt("elementTypes", "maximumElements") && StrLt("maximumElements", "polygon")
    ensures StrLt("polygon", "schemaRevision")
    ensures StrLt("schemaRevision", "tagFilters") && StrLt("tagFilters", "timeoutSeconds")
  {
    assert "elementTypes"[0] == 'e' && "maximumElements"[0] == 'm' && "polygon"[0] == 'p' && "schemaRevision"[0] == 's';
    var a, b := "tagFilters", "timeoutSeconds";
    assert a[0] == 't' && b[0] == 't' && a[1..][0] == 'a' && b[1..][0] == 'i';
    assert StrLt(a[1..], b[1..]);
  }

  lemma {:induction false} AscendingSorted(es: seq<Member>)
    requires forall i :: 0 <= i < |es| - 1 ==> StrLt(es[i].key, es[i + 1].key)
    ensures forall i, j :: 0 <= i < j < |es| ==> StrLt(es[i].key, es[j].key)
    ensures Sorted(es, KeyLe) && UniqueKeys(es)
  {
    forall i, j | 0 <= i < j < |es| ensures StrLt(es[i].key, es[j].key) {
      Chain(es, i, j);
    }
    forall i, j | 0 <= i < j < |es| ensures es[i].key != es[j].key {
      StrLtIrreflexive(es[i].key);
    }
  }

  lemma {:induction false} ChainBy(es: seq<Member>, lt: (string, string) -> bool, i: nat, j: nat)
    requires forall x, y, z :: lt(x, y) && lt(y, z) ==> lt(x, z)
    requires i < j < |es| && forall k :: 0 <= k < |es| - 1 ==> lt(es[k].key, es[k + 1].key)
    ensures lt(es[i].key, es[j].key)
    decreases j - i
  {
    assert lt(es[i].key, es[i + 1].key);
    if i + 1 < j {
      ChainBy(es, lt, i + 1, j);
    }
  }

  lemma {:induction false} Chain(es: seq<Member>, i: nat, j: nat)
    requires i < j < |es| && forall k :: 0 <= k < |es| - 1 ==> StrLt(es[k].key, es[k + 1].key)
    ensures StrLt(es[i].key, es[j].key)
  {
    forall x, y, z | StrLt(x, y) && StrLt(y, z) ensures StrLt(x, z) {
      StrLtTransitive(x, y, z);
    }
    ChainBy(es, StrLt, i, j);
  }

  lemma {:induction false} PlainRecord(es: seq<Member>)
    requires forall i :: 0 <= i < |es| - 1 ==> StrLt(es[i].key, es[i + 1].key)
    requires forall i :: 0 <= i < |es| ==> Plain(es[i].value)
    ensures Plain(Obj(es))
  {
    AscendingSorted(es);
    forall i | 0 <= i < |es| ensures CanonEntry(es[i]) == es[i] {
      assert Plain(es[i].value);
    }
    assert CanonEntries(es) == es;
    KeyLeOrder();
    UniqueTies(es);
    SortOfSorted(es, KeyLe);
  }

  lemma {:induction false} FieldAt(es: seq<Member>, i: nat)
    requires UniqueKeys(es) && i < |es|
    ensures FieldIndex(es, es[i].key) == i && Field(es, es[i].key) == es[i].value
  {
  }

  lemma {:induction false} SixFields(m: seq<Member>)
    requires |m| == 6 && forall i :: 0 <= i < 5 ==> StrLt(m[i].key, m[i + 1].key)
    ensures forall i :: 0 <= i < 6 ==> FieldIndex(m, m[i].key) == i && Field(m, m[i].key) == m[i].value
    ensures HasFields(m, [m[3].key, m[2].key, m[0].key, m[4].key, m[5].key, m[1].key])
  {
    AscendingSorted(m);
    forall i | 0 <= i < 6 ensures FieldIndex(m, m[i].key) == i && Field(m, m[i].key) == m[i].value {
      FieldAt(m, i);
    }
  }

  lemma {:induction false} MembersFields(
    types: Json, maximum: Json, polygon: Json, revision: Json, filters: Json, timeout: Json)
    ensures var es := Members(types, maximum, polygon, revision, filters, timeout);
      && HasFields(es, REQUIRED_KEYS)
      && Field(es, "elementTypes") == types && Field(es, "maximumElements") == maximum
      && Field(es, "polygon") == polygon && Field(es, "schemaRevision") == revision
      && Field(es, "tagFilters") == filters && Field(es, "timeoutSeconds") == timeout
  {
    var es := Members(types, maximum, polygon, revision, filters, timeout);
    KeyOrder();
    SixFields(es);
    assert REQUIRED_KEYS == [es[3].key, es[2].key, es[0].key, es[4].key, es[5].key, es[1].key];
    assert es[0].value == types && es[1].value == maximum && es[2].value == polygon;
    assert es[3].value == revision && es[4].value == filters && es[5].value == timeout;
  }

  lemma {:induction false} EntriesSize(es: seq<Member>)
    requires es != []
    ensures |Encode(RenderEntries(es))| <= |Encode(RenderEntry(es[0]))| + 1 + |Encode(RenderEntries(es[1..]))|
  {
    if |es| > 1 {
      EncodeParts(RenderEntry(es[0]) + ",", RenderEntries(es[1..]));
      EncodeParts(RenderEntry(es[0]), ",");
      OneByte(",");
    }
  }

  function Sum(es: seq<Member>): nat {
    if es == [] then 0 else Size(es[0].value) + Sum(es[1..])
  }

  /** Keys of at most 16 characters add at most 394 bytes each. */
  lemma {:induction false} RecordSize(es: seq<Member>)
    requires forall i :: 0 <= i < |es| ==> |es[i].key| <= 16
    ensures |Encode(RenderEntries(es))| <= 394 * |es| + Sum(es)
  {
    if es != [] {
      EntriesSize(es);
      EntrySize(es[0]);
      RecordSize(es[1..]);
    }
  }

  lemma {:induction false} ObjSize(es: seq<Member>)
    ensures Size(Obj(es)) == 2 + |Encode(RenderEntries(es))|
  {
    EncodeParts("{" + RenderEntries(es), "}");
    EncodeParts("{", RenderEntries(es));
    OneByte("{");
    OneByte("}");
  }

  lemma {:induction false} SumSix(m: seq<Member>)
    requires |m| == 6
    ensures Sum(m) == Size(m[0].value) + Size(m[1].value) + Size(m[2].value)
                      + Size(m[3].value) + Size(m[4].value) + Size(m[5].value)
  {
    assert m[1..][1..] == m[2..] && m[2..][1..] == m[3..] && m[3..][1..] == m[4..];
    assert m[4..][1..] == m[5..] && m[5..][1..] == [];
    assert Sum(m[5..]) == Size(m[5].value);
    assert Sum(m[4..]) == Size(m[4].value) + Sum(m[5..]);
    assert Sum(m[3..]) == Size(m[3].value) + Sum(m[4..]);
    assert Sum(m[2..]) == Size(m[2].value) + Sum(m[3..]);
    assert Sum(m[1..]) == Size(m[1].value) + Sum(m[2..]);
  }

  lemma {:induction false} KeyLengths(
    types: Json, maximum: Json, polygon: Json, revision: Json, filters: Json, timeout: Json)
    ensures var es := Members(types, maximum, polygon, revision, filters, timeout);
      |es| == 6 && forall i :: 0 <= i < |es| ==> |es[i].key| <= 16
  {
    assert |"elementTypes"| == 12 && |"maximumElements"| == 15 && |"polygon"| == 7;
    assert |"schemaRevision"| == 14 && |"tagFilters"| == 10 && |"timeoutSeconds"| == 14;
  }

  lemma {:induction false} SixSize(m: seq<Member>)
    requires |m| == 6 && forall i :: 0 <= i < |m| ==> |m[i].key| <= 16
    ensures Size(Obj(m)) <=
      2_366 + Size(m[0].value) + Size(m[1].value) + Size(m[2].value)
      + Size(m[3].value) + Size(m[4].value) + Size(m[5].value)
  {
    RecordSize(m);
    ObjSize(m);
    SumSix(m);
  }

  lemma {:induction false} MembersSize(
    types: Json, maximum: Json, polygon: Json, revision: Json, filters: Json, timeout: Json)
    ensures Size(Obj(Members(types, maximum, polygon, revision, filters, timeout))) <=
      2_366 + Size(types) + Size(maximum) + Size(polygon) + Size(revision) + Size(filters) + Size(timeout)
  {
    KeyLengths(types, maximum, polygon, revision, filters, timeout);
    SixSize(Members(types, maximum, polygon, revision, filters, timeout));
  }

  lemma {:induction false} ListReadsBack<T>(
    xs: seq<T>, one: Json -> Result<T, Error>, print1: T -> Json, k: nat, notList: Error)
    requires forall i :: 0 <= i < |xs| ==> one(print1(xs[i])) == Ok(xs[i])
    requires forall i :: 0 <= i < |xs| ==> Plain(print1(xs[i]))
    requires forall i :: 0 <= i < |xs| ==> Size(print1(xs[i])) + 1 <= k
    ensures ReadList(Arr(MapJson(xs, print1)), one, notList) == Ok(xs)
    ensures Plain(Arr(MapJson(xs, print1)))
    ensures Size(Arr(MapJson(xs, print1))) <= k * |xs| + 2
  {
    CollectReadsBack(xs, one, print1);
    PlainMap(xs, print1);
    ListSize(xs, print1, k);
  }

  lemma {:induction false} PointsReadBack(points: seq<GeoPoint>, fl: Floats)
    requires Sound(fl)
    requires forall i :: 0 <= i < |points| ==>
      ValidPoint(points[i]) && fl.isDouble(points[i].latitude) && fl.isDouble(points[i].longitude)
    ensures ReadList(Arr(MapJson(points, PointPrinter(fl))), PointReader(fl), PolygonInvalid) == Ok(points)
    ensures Plain(Arr(MapJson(points, PointPrinter(fl))))
    ensures Size(Arr(MapJson(points, PointPrinter(fl)))) <= 52 * |points| + 2
  {
    forall i | 0 <= i < |points|
      ensures PointReader(fl)(PointPrinter(fl)(points[i])) == Ok(points[i])
      ensures Plain(PointPrinter(fl)(points[i])) && Size(PointPrinter(fl)(points[i])) + 1 <= 52
    {
      PointReadsBack(points[i], fl);
    }
    ListReadsBack(points, PointReader(fl), PointPrinter(fl), 52, PolygonInvalid);
  }

  lemma {:induction false} TypesReadBack(types: seq<ElementType>)
    ensures ReadList(Arr(MapJson(types, TYPE_PRINTER)), TYPE_READER, ElementTypesInvalid) == Ok(types)
    ensures Plain(Arr(MapJson(types, TYPE_PRINTER)))
    ensures Size(Arr(MapJson(types, TYPE_PRINTER))) <= 51 * |types| + 2
  {
    forall i | 0 <= i < |types|
      ensures TYPE_READER(TYPE_PRINTER(types[i])) == Ok(types[i])
      ensures Plain(TYPE_PRINTER(types[i])) && Size(TYPE_PRINTER(types[i])) + 1 <= 51
    {
      TypeReadsBack(types[i]);
    }
    ListReadsBack(types, TYPE_READER, TYPE_PRINTER, 51, ElementTypesInvalid);
  }

  lemma {:induction false} FiltersReadBack(filters: seq<TagFilter>)
    requires forall i :: 0 <= i < |filters| ==> ValidFilter(filters[i])
    ensures ReadList(Arr(MapJson(filters, FILTER_PRINTER)), FILTER_READER, TagFiltersInvalid) == Ok(filters)
    ensures Plain(Arr(MapJson(filters, FILTER_PRINTER)))
    ensures Size(Arr(MapJson(filters, FILTER_PRINTER))) <= 155_101 * |filters| + 2
  {
    forall i | 0 <= i < |filters|
      ensures FILTER_READER(FILTER_PRINTER(filters[i])) == Ok(filters[i])
      ensures Plain(FILTER_PRINTER(filters[i])) && Size(FILTER_PRINTER(filters[i])) + 1 <= 155_101
    {
      FilterReadsBack(filters[i]);
    }
    ListReadsBack(filters, FILTER_READER, FILTER_PRINTER, 155_101, TagFiltersInvalid);
  }

  lemma {:induction false} SixPlain(m: seq<Member>)
    requires |m| == 6 && forall i :: 0 <= i < 5 ==> StrLt(m[i].key, m[i + 1].key)
    requires Plain(m[0].value) && Plain(m[1].value) && Plain(m[2].value)
    requires Plain(m[3].value) && Plain(m[4].value) && Plain(m[5].value)
    ensures Plain(Obj(m))
  {
    PlainRecord(m);
  }

  lemma {:induction false} MembersPlain(
    types: Json, maximum: Json, polygon: Json, revision: Json, filters: Json, timeout: Json)
    requires Plain(types) && Plain(maximum) && Plain(polygon) && Plain(revision) && Plain(filters) && Plain(timeout)
    ensures Plain(Obj(Members(types, maximum, polygon, revision, filters, timeout)))
  {
    var m := Members(types, maximum, polygon, revision, filters, timeout);
    KeyOrder();
    assert m[0].value == types && m[1].value == maximum && m[2].value == polygon;
    assert m[3].value == revision && m[4].value == filters && m[5].value == timeout;
    SixPlain(m);
  }

  lemma {:induction false} PointsPlain(points: seq<GeoPoint>, fl: Floats)
    requires Sound(fl)
    requires forall i :: 0 <= i < |points| ==>
      ValidPoint(points[i]) && fl.isDouble(points[i].latitude) && fl.isDouble(points[i].longitude)
    ensures Plain(Arr(MapJson(points, PointPrinter(fl))))
  {
    PointsReadBack(points, fl);
  }

  lemma {:induction false} TypesPlain(types: seq<ElementType>)
    ensures Plain(Arr(MapJson(types, TYPE_PRINTER)))
  {
    TypesReadBack(types);
  }

  lemma {:induction false} FiltersPlain(filters: seq<TagFilter>)
    requires forall i :: 0 <= i < |filters| ==> ValidFilter(filters[i])
    ensures Plain(Arr(MapJson(filters, FILTER_PRINTER)))
  {
    FiltersReadBack(filters);
  }

  lemma {:induction false} SpecMembersPlain(s: Spec, fl: Floats)
    requires Sound(fl) && ValidSpec(s, fl)
    ensures Plain(Obj(SpecMembers(s, fl)))
  {
    PointsPlain(s.polygon, fl);
    TypesPlain(s.elementTypes);
    FiltersPlain(s.tagFilters);
    MembersPlain(
      Arr(MapJson(s.elementTypes, TYPE_PRINTER)), Int(s.maximumElements), Arr(MapJson(s.polygon, PointPrinter(fl))),
      Str(REVISION), Arr(MapJson(s.tagFilters, FILTER_PRINTER)), Int(s.timeoutSeconds));
  }

  lemma {:induction false} SpecMembersFields(s: Spec, fl: Floats)
    ensures var m := SpecMembers(s, fl);
      && HasFields(m, REQUIRED_KEYS) && Field(m, "schemaRevision") == Str(REVISION)
      && Field(m, "elementTypes") == Arr(MapJson(s.elementTypes, TYPE_PRINTER))
      && Field(m, "polygon") == Arr(MapJson(s.polygon, PointPrinter(fl)))
      && Field(m, "tagFilters") == Arr(MapJson(s.tagFilters, FILTER_PRINTER))
      && Field(m, "timeoutSeconds") == Int(s.timeoutSeconds) && Field(m, "maximumElements") == Int(s.maximumElements)
  {
    MembersFields(
      Arr(MapJson(s.elementTypes, TYPE_PRINTER)), Int(s.maximumElements), Arr(MapJson(s.polygon, PointPrinter(fl))),
      Str(REVISION), Arr(MapJson(s.tagFilters, FILTER_PRINTER)), Int(s.timeoutSeconds));
  }

  /** The members written for a valid spec read back to it. */
  lemma {:induction false} SpecMembersReadBack(s: Spec, fl: Floats)
    requires Sound(fl) && ValidSpec(s, fl)
    ensures ReadMembers(SpecMembers(s, fl), fl) == Ok(s)
  {
    PointsReadBack(s.polygon, fl);
    TypesReadBack(s.elementTypes);
    FiltersReadBack(s.tagFilters);
    SpecMembersFields(s, fl);
    MembersReadBack(
      SpecMembers(s, fl), s, Arr(MapJson(s.elementTypes, TYPE_PRINTER)), Arr(MapJson(s.polygon, PointPrinter(fl))),
      Arr(MapJson(s.tagFilters, FILTER_PRINTER)), fl);
  }

  lemma {:induction false} MembersReadBack(
    root: seq<Member>, s: Spec, types: Json, points: Json, filters: Json, fl: Floats)
    requires Field(root, "polygon") == points && ReadList(points, PointReader(fl), PolygonInvalid) == Ok(s.polygon)
    requires Field(root, "elementTypes") == types
    requires ReadList(types, TYPE_READER, ElementTypesInvalid) == Ok(s.elementTypes)
    requires Field(root, "tagFilters") == filters
    requires ReadList(filters, FILTER_READER, TagFiltersInvalid) == Ok(s.tagFilters)
    requires Field(root, "timeoutSeconds") == Int(s.timeoutSeconds)
    requires Field(root, "maximumElements") == Int(s.maximumElements)
    requires ValidPolygon(s.polygon) && SpecShape(s)
    ensures ReadMembers(root, fl) == Ok(s)
  {
  }

  lemma {:induction false} RootReadsBack(root: seq<Member>)
    requires Plain(Obj(root)) && HasFields(root, REQUIRED_KEYS) && Field(root, "schemaRevision") == Str(REVISION)
    ensures ReadRoot(CanonicalBytes(Obj(root))) ==
      if |CanonicalBytes(Obj(root))| > MAX_INPUT_BYTES then Err(TooLarge) else Ok(root)
  {
    var v := Obj(root);
    RenderStart(v, "");
    assert Render(v)[0] == '{';
    RoundTripSig(Render(v));
    LoadsRender(v);
  }

  /**
    Decoding the document written for a valid spec returns that spec exactly when the
    document is within the reader's 4 MiB limit, and reports its size otherwise.
   */
  lemma {:induction false} SpecReadsBack(s: Spec, fl: Floats)
    requires Sound(fl) && ValidSpec(s, fl)
    ensures DecodeSpec(SpecBytes(s, fl), fl) ==
      if |SpecBytes(s, fl)| > MAX_INPUT_BYTES then Err(TooLarge) else Ok(s)
  {
    SpecMembersPlain(s, fl);
    SpecMembersFields(s, fl);
    SpecMembersReadBack(s, fl);
    RootReadsBack(SpecMembers(s, fl));
  }

  /** Different valid specs are written differently, whatever their size. */
  lemma {:induction false} SpecBytesIdentify(a: Spec, b: Spec, fl: Floats)
    requires Sound(fl) && ValidSpec(a, fl) && ValidSpec(b, fl)
    ensures SpecBytes(a, fl) == SpecBytes(b, fl) <==> a == b
  {
    if SpecBytes(a, fl) == SpecBytes(b, fl) {
      SpecMembersPlain(a, fl);
      SpecMembersPlain(b, fl);
      SpecMembersReadBack(a, fl);
      SpecMembersReadBack(b, fl);
      var x, y := Obj(SpecMembers(a, fl)), Obj(SpecMembers(b, fl));
      EncodeInjective(Render(x), Render(y));
      RenderInjective(x, y);
    }
  }

  // --------------------------------------------------------- when it fits

  lemma {:induction false} NatTextShort(n: nat, k: nat, p: nat)
    requires k >= 1 && n < p && (k == 1 ==> p <= 10) && (k > 1 ==> exists q :: p == 10 * q && ShortBound(k - 1, q))
    ensures |NatText(n)| <= k
    decreases k
  {
    if n >= 10 {
      var q :| p == 10 * q && ShortBound(k - 1, q);
      NatTextShort(n / 10, k - 1, q);
    }
  }

  ghost predicate ShortBound(k: nat, p: nat) {
    k >= 1 && (k == 1 ==> p <= 10) && (k > 1 ==> exists q :: p == 10 * q && ShortBound(k - 1, q))
  }

  lemma {:induction false} IntSize(n: int)
    requires 0 <= n < 1_000_000
    ensures Plain(Int(n)) && Size(Int(n)) <= 6
  {
    assert ShortBound(1, 10);
    assert 100 == 10 * 10 && ShortBound(2, 100);
    assert 1_000 == 10 * 100 && ShortBound(3, 1_000);
    assert 10_000 == 10 * 1_000 && ShortBound(4, 10_000);
    assert 100_000 == 10 * 10_000 && ShortBound(5, 100_000);
    assert 1_000_000 == 10 * 100_000;
    NatTextShort(n, 6, 1_000_000);
    OneByte(NatText(n));
  }

  function Rank(t: ElementType): nat {
    match t
    case Node => 0
    case Relation => 1
    case Way => 2
  }

  lemma {:induction false} TypeOrder(a: ElementType, b: ElementType)
    requires TypeLt(a, b)
    ensures Rank(a) < Rank(b)
  {
    StrLtIrreflexive(TypeText(a));
    assert "node"[0] == 'n' && "relation"[0] == 'r' && "way"[0] == 'w';
  }

  lemma {:induction false} RankAtLeast(types: seq<ElementType>, i: nat)
    requires Ascending(types, TypeLt) && i < |types|
    ensures Rank(types[i]) >= i
  {
    if i > 0 {
      RankAtLeast(types, i - 1);
      TypeOrder(types[i - 1], types[i]);
    }
  }

  lemma {:induction false} AtMostThreeTypes(types: seq<ElementType>)
    requires Ascending(types, TypeLt)
    ensures |types| <= 3
  {
    if types != [] {
      RankAtLeast(types, |types| - 1);
    }
  }

  /** Every spec of at most twenty filters, as the planner builds them, fits the reader's limit. */
  lemma {:induction false} SmallSpecFits(s: Spec, fl: Floats)
    requires Sound(fl) && ValidSpec(s, fl) && |s.tagFilters| <= 20
    ensures |SpecBytes(s, fl)| <= MAX_INPUT_BYTES
  {
    SpecMembersPlain(s, fl);
    PointsReadBack(s.polygon, fl);
    TypesReadBack(s.elementTypes);
    FiltersReadBack(s.tagFilters);
    AtMostThreeTypes(s.elementTypes);
    IntSize(s.maximumElements);
    IntSize(s.timeoutSeconds);
    TextSize(REVISION);
    assert |REVISION| == 20;
    MembersSize(
      Arr(MapJson(s.elementTypes, TYPE_PRINTER)), Int(s.maximumElements), Arr(MapJson(s.polygon, PointPrinter(fl))),
      Str(REVISION), Arr(MapJson(s.tagFilters, FILTER_PRINTER)), Int(s.timeoutSeconds));
  }

  // ------------------------------------------- a valid spec that does not fit

  /** A tag value of 255 four-byte characters; values ascend with `k`. */
  function WideValue(k: nat): (v: string)
    requires k < 200
    ensures |v| == 255 && v[0] == (0x10000 + k) as char && forall i :: 0 <= i < |v| ==> (v[i] as int) >= 0x10000
  {
    [(0x10000 + k) as char] + seq(254, i => 0x10FFFF as char)
  }

  function WideFilter(i: nat): TagFilter
    requires i < 100
  {
    TagFilter("k", seq(100, j requires 0 <= j < 100 => WideValue(i + j)))
  }

  function WideSpec(polygon: seq<GeoPoint>): Spec {
    Spec(polygon, [Node], seq(100, i requires 0 <= i < 100 => WideFilter(i)), 60, 25_000)
  }

  lemma {:induction false} WideFilterValid(i: nat)
    requires i < 100
    ensures ValidFilter(WideFilter(i))
  {
    var values := WideFilter(i).values;
    forall j | 0 <= j < |values| ensures ValidTagValue(values[j]) {
      assert values[j] == WideValue(i + j);
    }
    forall j, k | 0 <= j < k < |values| ensures StrLt(values[j], values[k]) {
      assert values[j] == WideValue(i + j) && values[k] == WideValue(i + k);
    }
  }

  lemma {:induction false} WideSpecValid(polygon: seq<GeoPoint>, fl: Floats)
    requires ValidPolygon(polygon)
    requires forall i :: 0 <= i < |polygon| ==>
      ValidPoint(polygon[i]) && fl.isDouble(polygon[i].latitude) && fl.isDouble(polygon[i].longitude)
    ensures ValidSpec(WideSpec(polygon), fl)
  {
    var filters := WideSpec(polygon).tagFilters;
    forall i | 0 <= i < |filters| ensures ValidFilter(filters[i]) {
      WideFilterValid(i);
    }
    forall i, j | 0 <= i < j < |filters| ensures FilterLt(filters[i], filters[j]) {
      var a, b := filters[i].values, filters[j].values;
      assert a[0] == WideValue(i) && b[0] == WideValue(j);
      assert StrLt(a[0], b[0]);
    }
  }

  lemma {:induction false} WideBytes(s: string)
    requires forall i :: 0 <= i < |s| ==> (s[i] as int) >= 0x10000
    ensures |Encode(Escape(s))| == 4 * |s|
  {
    if s != [] {
      WideBytes(s[1..]);
      EncodeParts(EscapeChar(s[0]), Escape(s[1..]));
      EncodeCons([s[0]]);
      assert Encode([s[0]][1..]) == [];
    }
  }

  lemma {:induction false} WideValueSize(k: nat)
    requires k < 200
    ensures Size(VALUE_PRINTER(WideValue(k))) >= 1_020
  {
    var v := WideValue(k);
    WideBytes(v);
    EncodeParts("\"" + Escape(v), "\"");
    EncodeParts("\"", Escape(v));
  }

  lemma {:induction false} OneMore(k: nat, n: nat)
    requires n > 0
    ensures k * (n - 1) + k == k * n
  {
  }

  lemma {:induction false} HeadAndRest(items: seq<Json>)
    requires items != []
    ensures |Encode(RenderItems(items))| >= Size(items[0]) + |Encode(RenderItems(items[1..]))|
  {
    if |items| > 1 {
      EncodeParts(Render(items[0]) + ",", RenderItems(items[1..]));
      EncodeParts(Render(items[0]), ",");
    } else {
      assert items[1..] == [];
    }
  }

  lemma {:induction false} ItemsAtLeast<T>(xs: seq<T>, print1: T -> Json, k: nat)
    requires forall i :: 0 <= i < |xs| ==> Size(print1(xs[i])) >= k
    ensures |Encode(RenderItems(MapJson(xs, print1)))| >= k * |xs|
  {
    if xs != [] {
      var items := MapJson(xs, print1);
      assert items[1..] == MapJson(xs[1..], print1);
      ItemsAtLeast(xs[1..], print1, k);
      HeadAndRest(items);
      OneMore(k, |xs|);
    }
  }

  /** A record is at least as long as each of its members. */
  lemma {:induction false} EntriesAtLeast(es: seq<Member>, i: nat)
    requires i < |es|
    ensures |Encode(RenderEntries(es))| >= Size(es[i].value)
  {
    if |es| > 1 {
      EncodeParts(RenderEntry(es[0]) + ",", RenderEntries(es[1..]));
      EncodeParts(RenderEntry(es[0]), ",");
    }
    if i == 0 {
      EncodeParts(Quote(es[0].key) + ":", Render(es[0].value));
    } else {
      EntriesAtLeast(es[1..], i - 1);
    }
  }

  lemma {:induction false} WideFilterSize(i: nat)
    requires i < 100
    ensures Size(FILTER_PRINTER(WideFilter(i))) >= 102_000
  {
    var values := WideFilter(i).values;
    forall j | 0 <= j < |values| ensures Size(VALUE_PRINTER(values[j])) >= 1_020 {
      assert values[j] == WideValue(i + j);
      WideValueSize(i + j);
    }
    ItemsAtLeast(values, VALUE_PRINTER, 1_020);
    ArrSize(MapJson(values, VALUE_PRINTER));
    var es := FilterJson(WideFilter(i)).entries;
    assert es[1].value == Arr(MapJson(values, VALUE_PRINTER));
    EntriesAtLeast(es, 1);
    ObjSize(es);
  }

  /** On every valid polygon there is a valid spec whose document the reader refuses. */
  lemma {:induction false} OversizedSpec(polygon: seq<GeoPoint>, fl: Floats)
    requires Sound(fl) && ValidPolygon(polygon)
    requires forall i :: 0 <= i < |polygon| ==>
      ValidPoint(polygon[i]) && fl.isDouble(polygon[i].latitude) && fl.isDouble(polygon[i].longitude)
    ensures ValidSpec(WideSpec(polygon), fl)
    ensures DecodeSpec(SpecBytes(WideSpec(polygon), fl), fl) == Err(TooLarge)
  {
    var s := WideSpec(polygon);
    WideSpecValid(polygon, fl);
    WideSpecSize(polygon, fl);
    SpecMembersPlain(s, fl);
    SpecReadsBack(s, fl);
  }

  lemma {:induction false} WideSpecSize(polygon: seq<GeoPoint>, fl: Floats)
    ensures Size(Obj(SpecMembers(WideSpec(polygon), fl))) > MAX_INPUT_BYTES
  {
    var filters := WideSpec(polygon).tagFilters;
    forall i | 0 <= i < |filters| ensures Size(FILTER_PRINTER(filters[i])) >= 102_000 {
      WideFilterSize(i);
    }
    ItemsAtLeast(filters, FILTER_PRINTER, 102_000);
    ArrSize(MapJson(filters, FILTER_PRINTER));
    var m := SpecMembers(WideSpec(polygon), fl);
    assert m[4].value == Arr(MapJson(filters, FILTER_PRINTER));
    EntriesAtLeast(m, 4);
    ObjSize(m);
  }
}
