/**
  Canonical GeoJSON boundaries
  (packages/collection_application/src/collection_application/geography.py), the loader that
  re-decodes them and the writer that emits them.
 */
module GeographyBoundary {
  import opened Text
  import opened Utf8
  import opened Json
  import opened CanonicalJson
  import opened Floats
  import opened JsonLayout

  const MAX_BOUNDARY_BYTES := 16 * 1024 * 1024
  const MAX_POSITIONS := 100_000

  /** `Overflow` is the OverflowError of `float(n)`; `Unhashable` the TypeError of a set lookup. */
  datatype Error =
    | TooLarge | EncodingInvalid | JsonInvalid | DuplicateJsonKey | NonFiniteNumber
    | ObjectInvalid | FieldsInvalid | TypeInvalid | Unhashable
    | CoordinatesInvalid | RingInvalid | PositionInvalid | CoordinateInvalid
    | PositionLimitExceeded | RingOpen | RingDegenerate | Overflow

  datatype GeometryType = Polygon | MultiPolygon

  datatype Position = Position(longitude: Double, latitude: Double)

  type Ring = seq<Position>

  /** A Polygon is kept as one list of rings, a MultiPolygon as one such list per polygon. */
  datatype Geometry = Geometry(kind: GeometryType, polygons: seq<seq<Ring>>)

  datatype Artifact = Artifact(
    sourceDigest: string, geometryDigest: string, canonical: seq<Byte>, kind: GeometryType, positionCount: nat)

  // ------------------------------------------------ decoding, as a function

  /** `_coordinate`. */
  function Coordinate(v: Json, bound: real, fl: Floats): Result<Double, Error> {
    match v
    case Int(n) =>
      (match fl.ofInt(n)
       case None => Err(Overflow)
       case Some(d) => InRange(d, bound))
    case Float(t) => InRange(fl.ofToken(t), bound)
    case _ => Err(CoordinateInvalid)
  }

  function InRange(d: Double, bound: real): Result<Double, Error> {
    if d.NotFinite? || !(-bound <= d.value <= bound) then Err(CoordinateInvalid)
    else if d.value == 0.0 then Ok(ZERO)
    else Ok(d)
  }

  /** A decoded part together with the shared position count after it. */
  type Counted<T> = Result<(T, nat), Error>

  type Reader<!T> = (Json, nat) -> Counted<T>

  /** Reads the items of a list one after another, threading the count. */
  function Each<T>(items: seq<Json>, count: nat, one: Reader<T>): Counted<seq<T>>
  {
    if items == [] then Ok(([], count))
    else
      match one(items[0], count)
      case Err(e) => Err(e)
      case Ok((x, n)) => Prepend([x], Each(items[1..], n, one))
  }

  function Prepend<T>(front: seq<T>, rest: Counted<seq<T>>): Counted<seq<T>> {
    match rest
    case Err(e) => Err(e)
    case Ok((xs, n)) => Ok((front + xs, n))
  }

  function PositionAt(v: Json, count: nat, fl: Floats): Counted<Position> {
    if !v.Arr? || |v.items| != 2 then Err(PositionInvalid)
    else
      match Coordinate(v.items[0], 180.0, fl)
      case Err(e) => Err(e)
      case Ok(longitude) =>
        match Coordinate(v.items[1], 90.0, fl)
        case Err(e) => Err(e)
        case Ok(latitude) =>
          if count + 1 > MAX_POSITIONS then Err(PositionLimitExceeded)
          else Ok((Position(longitude, latitude), count + 1))
  }

  function PositionReader(fl: Floats): Reader<Position> {
    (v: Json, count: nat) => PositionAt(v, count, fl)
  }

  predicate Closed(ring: Ring) {
    ring != [] && ring[0] == ring[|ring| - 1]
  }

  function Vertices(ring: Ring): set<Position> {
    set i | 0 <= i < |ring| - 1 :: ring[i]
  }

  function RingChecked(ring: Ring, count: nat): Counted<Ring> {
    if !Closed(ring) then Err(RingOpen)
    else if |Vertices(ring)| < 3 then Err(RingDegenerate)
    else Ok((ring, count))
  }

  function RingAt(v: Json, count: nat, fl: Floats): Counted<Ring> {
    if !v.Arr? || |v.items| < 4 then Err(RingInvalid)
    else
      match Each(v.items, count, PositionReader(fl))
      case Err(e) => Err(e)
      case Ok((ring, n)) => RingChecked(ring, n)
  }

  function RingReader(fl: Floats): Reader<Ring> {
    (v: Json, count: nat) => RingAt(v, count, fl)
  }

  /** `_polygon`. */
  function PolygonAt(v: Json, count: nat, fl: Floats): Counted<seq<Ring>> {
    if !v.Arr? || v.items == [] then Err(CoordinatesInvalid) else Each(v.items, count, RingReader(fl))
  }

  function PolygonReader(fl: Floats): Reader<seq<Ring>> {
    (v: Json, count: nat) => PolygonAt(v, count, fl)
  }

  function Coordinates(kind: GeometryType, v: Json, fl: Floats): Counted<seq<seq<Ring>>> {
    match kind
    case Polygon => Each([v], 0, PolygonReader(fl))
    case MultiPolygon =>
      if !v.Arr? || v.items == [] then Err(CoordinatesInvalid) else Each(v.items, 0, PolygonReader(fl))
  }

  // -------------------------------------------------------- canonical output

  function PositionPrinter(fl: Floats): Position -> Json {
    (p: Position) => Arr([Float(fl.repr(p.longitude)), Float(fl.repr(p.latitude))])
  }

  function RingPrinter(fl: Floats): Ring -> Json {
    (ring: Ring) => Arr(MapJson(ring, PositionPrinter(fl)))
  }

  function PolygonPrinter(fl: Floats): seq<Ring> -> Json {
    (rings: seq<Ring>) => Arr(MapJson(rings, RingPrinter(fl)))
  }

  function KindText(kind: GeometryType): string {
    if kind == Polygon then "Polygon" else "MultiPolygon"
  }

  function CoordinatesJson(g: Geometry, fl: Floats): Json
    requires g.kind == Polygon ==> |g.polygons| == 1
  {
    if g.kind == Polygon then PolygonPrinter(fl)(g.polygons[0]) else Arr(MapJson(g.polygons, PolygonPrinter(fl)))
  }

  function GeometryJson(g: Geometry, fl: Floats): Json
    requires g.kind == Polygon ==> |g.polygons| == 1
  {
    Obj([Member("coordinates", CoordinatesJson(g, fl)), Member("type", Str(KindText(g.kind)))])
  }

  // ------------------------------------------------------- the whole decoder

  lemma {:induction false} PrependNothing<T>(rest: Counted<seq<T>>)
    ensures Prepend([], rest) == rest
  {
    if rest.Ok? {
      assert [] + rest.value.0 == rest.value.0;
    }
  }

  /** `set(root) == {"type", "coordinates"}` for a dictionary. */
  predicate HasGeometryFields(entries: seq<Member>) {
    && |entries| == 2
    && FieldIndex(entries, "type") < 2
    && FieldIndex(entries, "coordinates") < 2
  }

  function KindOf(v: Json): Result<GeometryType, Error> {
    match v
    case Str(s) =>
      if s == "Polygon" then Ok(Polygon) else if s == "MultiPolygon" then Ok(MultiPolygon) else Err(TypeInvalid)
    case Arr(_) => Err(Unhashable)
    case Obj(_) => Err(Unhashable)
    case _ => Err(TypeInvalid)
  }

  function JsonError(w: Failure): Error {
    match w
    case Syntax => JsonInvalid
    case DuplicateKey => DuplicateJsonKey
    case NonFinite => NonFiniteNumber
  }

  /** The two fields of the document, the type first. */
  function ReadFields(body: seq<Byte>): Result<(Json, Json), Error> {
    if |body| > MAX_BOUNDARY_BYTES then Err(TooLarge)
    else
      match DecodeSig(body)
      case None => Err(EncodingInvalid)
      case Some(text) =>
        match Loads(text)
        case Err(w) => Err(JsonError(w))
        case Ok(root) =>
          if !root.Obj? then Err(ObjectInvalid)
          else if !HasGeometryFields(root.entries) then Err(FieldsInvalid)
          else Ok((root.entries[FieldIndex(root.entries, "type")].value,
                   root.entries[FieldIndex(root.entries, "coordinates")].value))
  }

  function ReadBoundary(body: seq<Byte>): Result<(GeometryType, Json), Error> {
    match ReadFields(body)
    case Err(e) => Err(e)
    case Ok((t, coordinates)) =>
      match KindOf(t)
      case Err(e) => Err(e)
      case Ok(kind) => Ok((kind, coordinates))
  }

  function ArtifactOf(body: seq<Byte>, g: Geometry, count: nat, fl: Floats, sha: seq<Byte> -> string): Artifact
    requires g.kind == Polygon ==> |g.polygons| == 1
  {
    var canonical := CanonicalBytes(GeometryJson(g, fl));
    Artifact("sha256:" + sha(body), "sha256:" + sha(canonical), canonical, g.kind, count)
  }

  /** `decode_boundary_geojson`. */
  function DecodeBoundary(body: seq<Byte>, fl: Floats, sha: seq<Byte> -> string): Result<Artifact, Error> {
    match ReadBoundary(body)
    case Err(e) => Err(e)
    case Ok((kind, coordinates)) =>
      match Coordinates(kind, coordinates, fl)
      case Err(e) => Err(e)
      case Ok((polygons, count)) =>
        Shapes(kind, coordinates, fl);
        Ok(ArtifactOf(body, Geometry(kind, polygons), count, fl, sha))
  }

  // ---------------------------------------------- decoding, as the code runs

  /** The one-element list `counter` that every nested call increments. */
  class Counter {
    var count: nat

    constructor ()
      ensures count == 0
    {
      count := 0;
    }
  }

  /** `outcome` and the counter agree with the counted specification. */
  ghost predicate Agrees<T>(spec: Counted<T>, outcome: Result<T, Error>, count: nat) {
    match spec
    case Err(e) => outcome == Err(e)
    case Ok((x, n)) => outcome == Ok(x) && count == n
  }

  method PositionOf(v: Json, counter: Counter, fl: Floats) returns (r: Result<Position, Error>)
    modifies counter
    ensures Agrees(PositionAt(v, old(counter.count), fl), r, counter.count)
  {
    if !v.Arr? || |v.items| != 2 {
      return Err(PositionInvalid);
    }
    var longitude := Coordinate(v.items[0], 180.0, fl);
    if longitude.Err? {
      return Err(longitude.error);
    }
    var latitude := Coordinate(v.items[1], 90.0, fl);
    if latitude.Err? {
      return Err(latitude.error);
    }
    counter.count := counter.count + 1;
    if counter.count > MAX_POSITIONS {
      return Err(PositionLimitExceeded);
    }
    return Ok(Position(longitude.value, latitude.value));
  }

  method RingOf(v: Json, counter: Counter, fl: Floats) returns (r: Result<Ring, Error>)
    modifies counter
    ensures Agrees(RingAt(v, old(counter.count), fl), r, counter.count)
  {
    if !v.Arr? || |v.items| < 4 {
      return Err(RingInvalid);
    }
    var ring: Ring := [];
    ghost var start := counter.count;
    assert v.items[0..] == v.items;
    PrependNothing(Each(v.items, start, PositionReader(fl)));
    for i := 0 to |v.items|
      invariant |ring| == i
      invariant Each(v.items, start, PositionReader(fl))
             == Prepend(ring, Each(v.items[i..], counter.count, PositionReader(fl)))
    {
      assert v.items[i..][1..] == v.items[i + 1..];
      ghost var rest := Each(v.items[i + 1..], counter.count + 1, PositionReader(fl));
      var p := PositionOf(v.items[i], counter, fl);
      if p.Err? {
        return Err(p.error);
      }
      assert rest.Ok? ==> ring + ([p.value] + rest.value.0) == ring + [p.value] + rest.value.0;
      ring := ring + [p.value];
    }
    assert ring + [] == ring;
    if !Closed(ring) {
      return Err(RingOpen);
    }
    if |Vertices(ring)| < 3 {
      return Err(RingDegenerate);
    }
    return Ok(ring);
  }

  method PolygonOf(v: Json, counter: Counter, fl: Floats) returns (r: Result<seq<Ring>, Error>)
    modifies counter
    ensures Agrees(PolygonAt(v, old(counter.count), fl), r, counter.count)
  {
    if !v.Arr? || v.items == [] {
      return Err(CoordinatesInvalid);
    }
    var rings: seq<Ring> := [];
    ghost var start := counter.count;
    assert v.items[0..] == v.items;
    PrependNothing(Each(v.items, start, RingReader(fl)));
    for i := 0 to |v.items|
      invariant Each(v.items, start, RingReader(fl))
             == Prepend(rings, Each(v.items[i..], counter.count, RingReader(fl)))
    {
      assert v.items[i..][1..] == v.items[i + 1..];
      var ring := RingOf(v.items[i], counter, fl);
      if ring.Err? {
        return Err(ring.error);
      }
      ghost var rest := Each(v.items[i + 1..], counter.count, RingReader(fl));
      assert rest.Ok? ==> rings + ([ring.value] + rest.value.0) == rings + [ring.value] + rest.value.0;
      rings := rings + [ring.value];
    }
    assert rings + [] == rings;
    return Ok(rings);
  }

  method PolygonsOf(items: seq<Json>, counter: Counter, fl: Floats) returns (r: Result<seq<seq<Ring>>, Error>)
    modifies counter
    ensures Agrees(Each(items, old(counter.count), PolygonReader(fl)), r, counter.count)
    ensures r.Ok? ==> |r.value| == |items|
  {
    var polygons: seq<seq<Ring>> := [];
    ghost var start := counter.count;
    ghost var reader := PolygonReader(fl);
    assert items[0..] == items;
    PrependNothing(Each(items, start, reader));
    for i := 0 to |items|
      invariant |polygons| == i
      invariant Each(items, start, reader) == Prepend(polygons, Each(items[i..], counter.count, reader))
    {
      ghost var before := counter.count;
      assert reader(items[i], before) == PolygonAt(items[i], before, fl);
      var rings := PolygonOf(items[i], counter, fl);
      EachStep(items, i, before, reader, polygons);
      if rings.Err? {
        return Err(rings.error);
      }
      polygons := polygons + [rings.value];
    }
    assert polygons + [] == polygons;
    return Ok(polygons);
  }

  /** One turn of a loop over `items`. */
  lemma {:induction false} EachStep<T>(items: seq<Json>, i: nat, count: nat, one: Reader<T>, done: seq<T>)
    requires i < |items|
    ensures one(items[i], count).Err? ==> Each(items[i..], count, one) == Err(one(items[i], count).error)
    ensures one(items[i], count).Ok? ==> var (x, n) := one(items[i], count).value;
      Prepend(done, Each(items[i..], count, one)) == Prepend(done + [x], Each(items[i + 1..], n, one))
  {
    assert items[i..][1..] == items[i + 1..];
    if one(items[i], count).Ok? {
      var (x, n) := one(items[i], count).value;
      var rest := Each(items[i + 1..], n, one);
      if rest.Ok? {
        assert done + ([x] + rest.value.0) == done + [x] + rest.value.0;
      }
    }
  }

  method Decode(body: seq<Byte>, fl: Floats, sha: seq<Byte> -> string) returns (r: Result<Artifact, Error>)
    ensures r == DecodeBoundary(body, fl, sha)
  {
    var read := ReadBoundary(body);
    if read.Err? {
      return Err(read.error);
    }
    var (kind, coordinates) := read.value;
    if kind == MultiPolygon && (!coordinates.Arr? || coordinates.items == []) {
      return Err(CoordinatesInvalid);
    }
    var items := if kind == Polygon then [coordinates] else coordinates.items;
    var counter := new Counter();
    var polygons := PolygonsOf(items, counter, fl);
    if polygons.Err? {
      return Err(polygons.error);
    }
    return Ok(ArtifactOf(body, Geometry(kind, polygons.value), counter.count, fl, sha));
  }

  // ------------------------------------------- what an accepted geometry is

  const ONE: Position -> nat := (p: Position) => 1
  const RING_COUNT: Ring -> nat := (ring: Ring) => Total(ring, ONE)
  const POLYGON_COUNT: seq<Ring> -> nat := (rings: seq<Ring>) => Total(rings, RING_COUNT)

  lemma {:induction false} TotalOne(ring: Ring)
    ensures Total(ring, ONE) == |ring|
  {
    if ring != [] {
      TotalOne(ring[1..]);
    }
  }

  predicate Canonical(d: Double, bound: real, fl: Floats) {
    d.Finite? && !d.minusZero && -bound <= d.value <= bound && fl.isDouble(d)
  }

  predicate PositionOk(p: Position, fl: Floats) {
    Canonical(p.longitude, 180.0, fl) && Canonical(p.latitude, 90.0, fl)
  }

  predicate RingOk(ring: Ring, fl: Floats) {
    |ring| >= 4 && Closed(ring) && |Vertices(ring)| >= 3 && forall i :: 0 <= i < |ring| ==> PositionOk(ring[i], fl)
  }

  predicate RingsOk(rings: seq<Ring>, fl: Floats) {
    rings != [] && forall i :: 0 <= i < |rings| ==> RingOk(rings[i], fl)
  }

  // -------------------------------------- what a document says, item by item

  /** The JSON number has this value; zero goes without its sign. */
  ghost predicate NumberIs(v: Json, d: Double, fl: Floats) {
    match v
    case Int(n) => fl.ofInt(n).Some? && fl.ofInt(n).value.Finite? && d == Finite(fl.ofInt(n).value.value, false)
    case Float(t) => fl.ofToken(t).Finite? && d == Finite(fl.ofToken(t).value, false)
    case _ => false
  }

  /** A pair [longitude, latitude]. */
  ghost predicate PositionIs(v: Json, p: Position, fl: Floats) {
    v.Arr? && |v.items| == 2 && NumberIs(v.items[0], p.longitude, fl) && NumberIs(v.items[1], p.latitude, fl)
  }

  ghost predicate RingIs(v: Json, ring: Ring, fl: Floats) {
    v.Arr? && |v.items| == |ring| && forall i :: 0 <= i < |ring| ==> PositionIs(v.items[i], ring[i], fl)
  }

  ghost predicate PolygonIs(v: Json, rings: seq<Ring>, fl: Floats) {
    v.Arr? && |v.items| == |rings| && forall i :: 0 <= i < |rings| ==> RingIs(v.items[i], rings[i], fl)
  }

  /** The coordinates have the nesting of the geometry, and position by position its numbers. */
  ghost predicate CoordinatesAre(v: Json, g: Geometry, fl: Floats) {
    if g.kind == Polygon then |g.polygons| == 1 && PolygonIs(v, g.polygons[0], fl)
    else
      v.Arr? && |v.items| == |g.polygons|
      && forall i :: 0 <= i < |g.polygons| ==> PolygonIs(v.items[i], g.polygons[i], fl)
  }

  /** A reader that counts what it returns, within the limit, and returns only what the item says. */
  ghost predicate Counts<T(!new)>(one: Reader<T>, size: T -> nat, good: (Json, T) -> bool) {
    forall v: Json, n: nat :: one(v, n).Ok? ==>
      var (x, m) := one(v, n).value; good(v, x) && m == n + size(x) && m <= MAX_POSITIONS
  }

  lemma {:induction false} EachCounts<T(!new)>(
    items: seq<Json>, count: nat, one: Reader<T>, size: T -> nat, good: (Json, T) -> bool)
    requires Counts(one, size, good) && Each(items, count, one).Ok?
    ensures var (xs, n) := Each(items, count, one).value;
      && |xs| == |items| && n == count + Total(xs, size) && (items != [] ==> n <= MAX_POSITIONS)
      && forall i :: 0 <= i < |xs| ==> good(items[i], xs[i])
  {
    if items != [] {
      var (x, n) := one(items[0], count).value;
      EachCounts(items[1..], n, one, size, good);
      var (rest, _) := Each(items[1..], n, one).value;
      assert ([x] + rest)[1..] == rest;
    }
  }

  ghost predicate GoodPosition(v: Json, p: Position, fl: Floats) {
    PositionIs(v, p, fl) && PositionOk(p, fl)
  }

  ghost predicate GoodRing(v: Json, ring: Ring, fl: Floats) {
    RingIs(v, ring, fl) && RingOk(ring, fl)
  }

  ghost predicate GoodRings(v: Json, rings: seq<Ring>, fl: Floats) {
    PolygonIs(v, rings, fl) && RingsOk(rings, fl)
  }

  lemma {:induction false} CoordinateCanonical(v: Json, bound: real, fl: Floats)
    requires Sound(fl) && Coordinate(v, bound, fl).Ok?
    ensures Canonical(Coordinate(v, bound, fl).value, bound, fl) && NumberIs(v, Coordinate(v, bound, fl).value, fl)
  {
  }

  lemma {:induction false} PositionsCount(fl: Floats)
    requires Sound(fl)
    ensures Counts(PositionReader(fl), ONE, (v: Json, p: Position) => GoodPosition(v, p, fl))
  {
    forall v: Json, n: nat | PositionReader(fl)(v, n).Ok?
      ensures GoodPosition(v, PositionAt(v, n, fl).value.0, fl)
    {
      CoordinateCanonical(v.items[0], 180.0, fl);
      CoordinateCanonical(v.items[1], 90.0, fl);
    }
  }

  lemma {:induction false} RingsCount(fl: Floats)
    requires Sound(fl)
    ensures Counts(RingReader(fl), RING_COUNT, (v: Json, ring: Ring) => GoodRing(v, ring, fl))
  {
    PositionsCount(fl);
    forall v: Json, n: nat | RingReader(fl)(v, n).Ok?
      ensures var (ring, m) := RingAt(v, n, fl).value;
        GoodRing(v, ring, fl) && m == n + Total(ring, ONE) && m <= MAX_POSITIONS
    {
      RingCountsAt(v, n, fl, (w: Json, p: Position) => GoodPosition(w, p, fl));
      GoodPositions(v, RingAt(v, n, fl).value.0, fl);
    }
  }

  lemma {:induction false} GoodPositions(v: Json, ring: Ring, fl: Floats)
    requires v.Arr? && |v.items| == |ring| >= 4 && Closed(ring) && |Vertices(ring)| >= 3
    requires forall i :: 0 <= i < |ring| ==> GoodPosition(v.items[i], ring[i], fl)
    ensures GoodRing(v, ring, fl)
  {
  }

  lemma {:induction false} RingCountsAt(v: Json, n: nat, fl: Floats, good: (Json, Position) -> bool)
    requires Counts(PositionReader(fl), ONE, good) && RingAt(v, n, fl).Ok?
    ensures var (ring, m) := RingAt(v, n, fl).value;
      && v.Arr? && |v.items| == |ring| >= 4 && Closed(ring) && |Vertices(ring)| >= 3
      && m == n + Total(ring, ONE) && m <= MAX_POSITIONS
      && forall i :: 0 <= i < |ring| ==> good(v.items[i], ring[i])
  {
    EachCounts(v.items, n, PositionReader(fl), ONE, good);
  }

  lemma {:induction false} PolygonsCount(fl: Floats)
    requires Sound(fl)
    ensures Counts(PolygonReader(fl), POLYGON_COUNT, (v: Json, rings: seq<Ring>) => GoodRings(v, rings, fl))
  {
    RingsCount(fl);
    forall v: Json, n: nat | PolygonReader(fl)(v, n).Ok?
      ensures var (rings, m) := PolygonAt(v, n, fl).value;
        GoodRings(v, rings, fl) && m == n + Total(rings, RING_COUNT) && m <= MAX_POSITIONS
    {
      EachCounts(v.items, n, RingReader(fl), RING_COUNT, (w: Json, ring: Ring) => GoodRing(w, ring, fl));
    }
  }

  lemma {:induction false} EachLength<T>(items: seq<Json>, count: nat, one: Reader<T>)
    requires Each(items, count, one).Ok?
    ensures |Each(items, count, one).value.0| == |items|
  {
    if items != [] {
      EachLength(items[1..], one(items[0], count).value.1, one);
    }
  }

  lemma {:induction false} Shapes(kind: GeometryType, v: Json, fl: Floats)
    ensures Coordinates(kind, v, fl).Ok? && kind == Polygon ==> |Coordinates(kind, v, fl).value.0| == 1
  {
    if kind == Polygon && Coordinates(kind, v, fl).Ok? {
      EachLength([v], 0, PolygonReader(fl));
    }
  }

  ghost predicate GeometryOk(g: Geometry, fl: Floats) {
    && g.polygons != [] && (forall i :: 0 <= i < |g.polygons| ==> RingsOk(g.polygons[i], fl))
    && 4 <= Total(g.polygons, POLYGON_COUNT) <= MAX_POSITIONS
    && (g.kind == Polygon ==> |g.polygons| == 1)
  }

  lemma {:induction false} RingsAtLeastFour(rings: seq<Ring>, fl: Floats)
    requires RingsOk(rings, fl)
    ensures Total(rings, RING_COUNT) >= 4
  {
    TotalOne(rings[0]);
  }

  lemma {:induction false} PolygonsOk(items: seq<Json>, fl: Floats)
    requires Sound(fl) && items != [] && Each(items, 0, PolygonReader(fl)).Ok?
    ensures var (polygons, n) := Each(items, 0, PolygonReader(fl)).value;
      && |polygons| == |items| && n == Total(polygons, POLYGON_COUNT) && 4 <= n <= MAX_POSITIONS
      && forall i :: 0 <= i < |items| ==> PolygonIs(items[i], polygons[i], fl) && RingsOk(polygons[i], fl)
  {
    PolygonsCount(fl);
    EachCounts(items, 0, PolygonReader(fl), POLYGON_COUNT, (w: Json, rings: seq<Ring>) => GoodRings(w, rings, fl));
    var (polygons, n) := Each(items, 0, PolygonReader(fl)).value;
    assert forall i :: 0 <= i < |items| ==> GoodRings(items[i], polygons[i], fl);
    RingsAtLeastFour(polygons[0], fl);
  }

  /** What the decoder accepts: a valid geometry, as the coordinates say, and its exact position count. */
  lemma {:induction false} CoordinatesOk(kind: GeometryType, v: Json, fl: Floats)
    requires Sound(fl) && Coordinates(kind, v, fl).Ok?
    ensures var (polygons, n) := Coordinates(kind, v, fl).value;
      && GeometryOk(Geometry(kind, polygons), fl) && n == Total(polygons, POLYGON_COUNT)
      && CoordinatesAre(v, Geometry(kind, polygons), fl)
  {
    PolygonsOk(if kind == Polygon then [v] else v.items, fl);
  }

  // ----------------------------------- reading what the coordinates say

  /** Reading the item gives `x` and counts it, while the limit allows. */
  ghost predicate Reads<T>(v: Json, x: T, one: Reader<T>, size: T -> nat) {
    forall n: nat {:trigger one(v, n)} :: n + size(x) <= MAX_POSITIONS ==> one(v, n) == Ok((x, n + size(x)))
  }

  ghost predicate AllRead<T>(items: seq<Json>, xs: seq<T>, one: Reader<T>, size: T -> nat) {
    |items| == |xs| && forall i :: 0 <= i < |xs| ==> Reads(items[i], xs[i], one, size)
  }

  lemma {:induction false} EachReads<T>(items: seq<Json>, xs: seq<T>, count: nat, one: Reader<T>, size: T -> nat)
    requires AllRead(items, xs, one, size)
    requires count + Total(xs, size) <= MAX_POSITIONS
    ensures Each(items, count, one) == Ok((xs, count + Total(xs, size)))
  {
    if xs != [] {
      var x, tail, n := xs[0], xs[1..], count + size(xs[0]);
      assert Reads(items[0], x, one, size);
      EachReads(items[1..], tail, n, one, size);
      EachCons(items, count, one, x, n, tail, n + Total(tail, size));
      assert xs == [x] + tail;
    }
  }

  lemma {:induction false} EachCons<T>(
    items: seq<Json>, count: nat, one: Reader<T>, x: T, n: nat, tail: seq<T>, total: nat)
    requires items != [] && one(items[0], count) == Ok((x, n)) && Each(items[1..], n, one) == Ok((tail, total))
    ensures Each(items, count, one) == Ok(([x] + tail, total))
  {
  }

  lemma {:induction false} CoordinateReads(v: Json, d: Double, bound: real, fl: Floats)
    requires Sound(fl) && Canonical(d, bound, fl) && NumberIs(v, d, fl)
    ensures Coordinate(v, bound, fl) == Ok(d)
  {
  }

  lemma {:induction false} PositionReads(v: Json, p: Position, fl: Floats)
    requires Sound(fl) && GoodPosition(v, p, fl)
    ensures Reads(v, p, PositionReader(fl), ONE)
  {
    CoordinateReads(v.items[0], p.longitude, 180.0, fl);
    CoordinateReads(v.items[1], p.latitude, 90.0, fl);
  }

  predicate ReturnsItems<T(==)>(outcome: Counted<seq<T>>, xs: seq<T>) {
    outcome.Ok? && outcome.value.0 == xs
  }

  /** The list reader returns what its item reader returned. */
  ghost predicate Lifts<T>(v: Json, xs: seq<T>, one: Reader<T>, list: Reader<seq<T>>) {
    && v.Arr?
    && (forall n: nat :: ReturnsItems(Each(v.items, n, one), xs) ==> list(v, n) == Each(v.items, n, one))
  }

  lemma {:induction false} ListReads<T>(
    v: Json, xs: seq<T>, one: Reader<T>, size: T -> nat, list: Reader<seq<T>>, listSize: seq<T> -> nat)
    requires Lifts(v, xs, one, list) && AllRead(v.items, xs, one, size)
    requires listSize(xs) == Total(xs, size)
    ensures Reads(v, xs, list, listSize)
  {
    forall n: nat | n + listSize(xs) <= MAX_POSITIONS ensures list(v, n) == Ok((xs, n + listSize(xs))) {
      EachReads(v.items, xs, n, one, size);
    }
  }

  lemma {:induction false} RingLifts(v: Json, ring: Ring, fl: Floats)
    requires v.Arr? && |v.items| == |ring| >= 4 && Closed(ring) && |Vertices(ring)| >= 3
    ensures Lifts(v, ring, PositionReader(fl), RingReader(fl))
  {
  }

  lemma {:induction false} PolygonLifts(v: Json, rings: seq<Ring>, fl: Floats)
    requires v.Arr? && |v.items| == |rings| > 0
    ensures Lifts(v, rings, RingReader(fl), PolygonReader(fl))
  {
  }

  lemma {:induction false} RingReads(v: Json, ring: Ring, fl: Floats)
    requires Sound(fl) && GoodRing(v, ring, fl)
    ensures Reads(v, ring, RingReader(fl), RING_COUNT)
  {
    forall i | 0 <= i < |ring| ensures Reads(v.items[i], ring[i], PositionReader(fl), ONE) {
      PositionReads(v.items[i], ring[i], fl);
    }
    RingLifts(v, ring, fl);
    ListReads(v, ring, PositionReader(fl), ONE, RingReader(fl), RING_COUNT);
  }

  lemma {:induction false} PolygonReads(v: Json, rings: seq<Ring>, fl: Floats)
    requires Sound(fl) && GoodRings(v, rings, fl)
    ensures Reads(v, rings, PolygonReader(fl), POLYGON_COUNT)
  {
    forall i | 0 <= i < |rings| ensures Reads(v.items[i], rings[i], RingReader(fl), RING_COUNT) {
      RingReads(v.items[i], rings[i], fl);
    }
    PolygonLifts(v, rings, fl);
    ListReads(v, rings, RingReader(fl), RING_COUNT, PolygonReader(fl), POLYGON_COUNT);
  }

  lemma {:induction false} CoordinatesRead(v: Json, g: Geometry, fl: Floats)
    requires Sound(fl) && GeometryOk(g, fl) && CoordinatesAre(v, g, fl)
    ensures Coordinates(g.kind, v, fl) == Ok((g.polygons, Total(g.polygons, POLYGON_COUNT)))
  {
    var items := if g.kind == Polygon then [v] else v.items;
    forall i | 0 <= i < |g.polygons| ensures Reads(items[i], g.polygons[i], PolygonReader(fl), POLYGON_COUNT) {
      PolygonReads(items[i], g.polygons[i], fl);
    }
    ItemsRead(items, g.polygons, PolygonReader(fl), POLYGON_COUNT);
  }

  lemma {:induction false} ItemsRead<T>(items: seq<Json>, xs: seq<T>, one: Reader<T>, size: T -> nat)
    requires AllRead(items, xs, one, size) && Total(xs, size) <= MAX_POSITIONS
    ensures Each(items, 0, one) == Ok((xs, Total(xs, size)))
  {
    EachReads(items, xs, 0, one, size);
  }

  // ------------------------------------------- the printed coordinates

  lemma {:induction false} PrintedNumber(d: Double, bound: real, fl: Floats)
    requires Sound(fl) && Canonical(d, bound, fl)
    ensures NumberIs(Float(fl.repr(d)), d, fl)
  {
    assert ReprReadsBack(d, fl);
  }

  lemma {:induction false} PrintedPosition(p: Position, fl: Floats)
    requires Sound(fl) && PositionOk(p, fl)
    ensures PositionIs(PositionPrinter(fl)(p), p, fl)
  {
    PrintedNumber(p.longitude, 180.0, fl);
    PrintedNumber(p.latitude, 90.0, fl);
  }

  lemma {:induction false} PrintedRings(rings: seq<Ring>, fl: Floats)
    requires Sound(fl) && RingsOk(rings, fl)
    ensures PolygonIs(PolygonPrinter(fl)(rings), rings, fl)
  {
    forall i | 0 <= i < |rings| ensures RingIs(RingPrinter(fl)(rings[i]), rings[i], fl) {
      PrintedRing(rings[i], fl);
    }
  }

  lemma {:induction false} PrintedRing(ring: Ring, fl: Floats)
    requires Sound(fl) && RingOk(ring, fl)
    ensures RingIs(RingPrinter(fl)(ring), ring, fl)
  {
    forall i | 0 <= i < |ring| ensures PositionIs(PositionPrinter(fl)(ring[i]), ring[i], fl) {
      PrintedPosition(ring[i], fl);
    }
  }

  lemma {:induction false} PrintedCoordinates(g: Geometry, fl: Floats)
    requires Sound(fl) && GeometryOk(g, fl)
    ensures CoordinatesAre(CoordinatesJson(g, fl), g, fl)
  {
    forall i | 0 <= i < |g.polygons| ensures PolygonIs(PolygonPrinter(fl)(g.polygons[i]), g.polygons[i], fl) {
      PrintedRings(g.polygons[i], fl);
    }
  }

  // ------------------------------------------------------ size of the output

  lemma {:induction false} TokenSize(d: Double, bound: real, fl: Floats)
    requires Sound(fl) && Canonical(d, bound, fl)
    ensures Size(Float(fl.repr(d))) <= 24
  {
    assert ReprReadsBack(d, fl);
    TokenAscii(fl.repr(d));
    OneByte(fl.repr(d));
  }

  lemma {:induction false} PositionSize(p: Position, fl: Floats)
    requires Sound(fl) && PositionOk(p, fl)
    ensures Size(PositionPrinter(fl)(p)) + 1 <= 52 * ONE(p)
  {
    TokenSize(p.longitude, 180.0, fl);
    TokenSize(p.latitude, 90.0, fl);
    var items := [Float(fl.repr(p.longitude)), Float(fl.repr(p.latitude))];
    ArrSize(items);
    ItemsSize(items);
    assert items[1..] == [items[1]];
    assert RenderItems(items[1..]) == Render(items[1]);
  }

  lemma {:induction false} RingSize(ring: Ring, fl: Floats)
    requires Sound(fl) && RingOk(ring, fl)
    ensures Size(RingPrinter(fl)(ring)) + 1 <= 53 * RING_COUNT(ring)
  {
    forall i | 0 <= i < |ring| ensures Size(PositionPrinter(fl)(ring[i])) + 1 <= 52 * ONE(ring[i]) {
      PositionSize(ring[i], fl);
    }
    EachSize(ring, PositionPrinter(fl), ONE, 52);
    ArrSize(MapJson(ring, PositionPrinter(fl)));
    TotalOne(ring);
  }

  lemma {:induction false} PolygonSize(rings: seq<Ring>, fl: Floats)
    requires Sound(fl) && RingsOk(rings, fl)
    ensures Size(PolygonPrinter(fl)(rings)) + 1 <= 54 * POLYGON_COUNT(rings)
  {
    forall i | 0 <= i < |rings| ensures Size(RingPrinter(fl)(rings[i])) + 1 <= 53 * RING_COUNT(rings[i]) {
      RingSize(rings[i], fl);
    }
    EachSize(rings, RingPrinter(fl), RING_COUNT, 53);
    ArrSize(MapJson(rings, RingPrinter(fl)));
    RingsAtLeastFour(rings, fl);
  }

  lemma {:induction false} CoordinatesSize(g: Geometry, fl: Floats)
    requires Sound(fl) && GeometryOk(g, fl)
    ensures Size(CoordinatesJson(g, fl)) <= 54 * MAX_POSITIONS + 2
  {
    forall i | 0 <= i < |g.polygons|
      ensures Size(PolygonPrinter(fl)(g.polygons[i])) + 1 <= 54 * POLYGON_COUNT(g.polygons[i])
    {
      PolygonSize(g.polygons[i], fl);
    }
    EachSize(g.polygons, PolygonPrinter(fl), POLYGON_COUNT, 54);
    ArrSize(MapJson(g.polygons, PolygonPrinter(fl)));
    if g.kind == Polygon {
      assert MapJson(g.polygons, PolygonPrinter(fl)) == [CoordinatesJson(g, fl)];
    }
  }

  lemma {:induction false} DocumentSize(coordinates: Json, kind: GeometryType)
    requires Size(coordinates) <= 54 * MAX_POSITIONS + 2
    ensures Size(Obj([Member("coordinates", coordinates), Member("type", Str(KindText(kind)))])) <= MAX_BOUNDARY_BYTES
  {
    QuoteSize(KindText(kind));
    assert |KindText(kind)| <= 12 && |"coordinates"| == 11 && |"type"| == 4;
    PairSize(Member("coordinates", coordinates), Member("type", Str(KindText(kind))));
  }

  /** At most 100000 positions always print within 16 MiB. */
  lemma {:induction false} GeometryFits(g: Geometry, fl: Floats)
    requires Sound(fl) && GeometryOk(g, fl)
    ensures Size(GeometryJson(g, fl)) <= MAX_BOUNDARY_BYTES
  {
    CoordinatesSize(g, fl);
    DocumentSize(CoordinatesJson(g, fl), g.kind);
  }

  // ------------------------------------------------- the canonical document

  lemma {:induction false} PlainPosition(p: Position, fl: Floats)
    requires Sound(fl) && PositionOk(p, fl)
    ensures Plain(PositionPrinter(fl)(p))
  {
    assert ReprReadsBack(p.longitude, fl) && ReprReadsBack(p.latitude, fl);
    PlainArr([Float(fl.repr(p.longitude)), Float(fl.repr(p.latitude))]);
  }

  lemma {:induction false} PlainRing(ring: Ring, fl: Floats)
    requires Sound(fl) && RingOk(ring, fl)
    ensures Plain(RingPrinter(fl)(ring))
  {
    forall i | 0 <= i < |ring| ensures Plain(PositionPrinter(fl)(ring[i])) {
      PlainPosition(ring[i], fl);
    }
    PlainMap(ring, PositionPrinter(fl));
  }

  lemma {:induction false} PlainPolygon(rings: seq<Ring>, fl: Floats)
    requires Sound(fl) && RingsOk(rings, fl)
    ensures Plain(PolygonPrinter(fl)(rings))
  {
    forall i | 0 <= i < |rings| ensures Plain(RingPrinter(fl)(rings[i])) {
      PlainRing(rings[i], fl);
    }
    PlainMap(rings, RingPrinter(fl));
  }

  lemma {:induction false} PlainCoordinates(g: Geometry, fl: Floats)
    requires Sound(fl) && GeometryOk(g, fl)
    ensures Plain(CoordinatesJson(g, fl))
  {
    forall i | 0 <= i < |g.polygons| ensures Plain(PolygonPrinter(fl)(g.polygons[i])) {
      PlainPolygon(g.polygons[i], fl);
    }
    PlainMap(g.polygons, PolygonPrinter(fl));
  }

  /** A document with these two fields. */
  function Document(coordinates: Json, t: Json): Json {
    Obj([Member("coordinates", coordinates), Member("type", t)])
  }

  lemma {:induction false} FieldOrder(a: Member, b: Member)
    requires a.key == "coordinates" && b.key == "type"
    ensures a.key != b.key && KeyLe(a, b)
  {
    assert a.key[0] == 'c' && b.key[0] == 't';
    assert StrLt(a.key, b.key);
  }

  lemma {:induction false} PlainDocument(coordinates: Json, t: Json)
    requires Plain(coordinates) && Plain(t)
    ensures Plain(Document(coordinates, t))
  {
    FieldOrder(Member("coordinates", coordinates), Member("type", t));
    PlainPair(Member("coordinates", coordinates), Member("type", t));
  }

  lemma {:induction false} DocumentFields(coordinates: Json, t: Json)
    ensures var es := [Member("coordinates", coordinates), Member("type", t)];
      FieldIndex(es, "type") == 1 && FieldIndex(es, "coordinates") == 0 && HasGeometryFields(es)
  {
    var es := [Member("coordinates", coordinates), Member("type", t)];
    assert |"coordinates"| == 11 && |"type"| == 4;
  }

  /** Reading a printed document gives its fields back. */
  lemma {:induction false} FieldsReadBack(coordinates: Json, t: Json)
    requires Plain(coordinates) && Plain(t)
    ensures var bytes := CanonicalBytes(Document(coordinates, t));
      ReadFields(bytes) == if |bytes| > MAX_BOUNDARY_BYTES then Err(TooLarge) else Ok((t, coordinates))
  {
    var v := Document(coordinates, t);
    PlainDocument(coordinates, t);
    RenderStart(v, "");
    assert Render(v)[0] == '{';
    RoundTripSig(Render(v));
    LoadsRender(v);
    DocumentFields(coordinates, t);
  }

  lemma {:induction false} KindReadsBack(kind: GeometryType)
    ensures KindOf(Str(KindText(kind))) == Ok(kind)
  {
    assert |"Polygon"| == 7 && |"MultiPolygon"| == 12;
  }

  lemma {:induction false} DocumentReadsBack(coordinates: Json, kind: GeometryType)
    requires Plain(coordinates)
    requires Size(Obj([Member("coordinates", coordinates), Member("type", Str(KindText(kind)))])) <= MAX_BOUNDARY_BYTES
    ensures ReadBoundary(CanonicalBytes(Obj([Member("coordinates", coordinates), Member("type", Str(KindText(kind)))])))
      == Ok((kind, coordinates))
  {
    PlainDocument(coordinates, Str(KindText(kind)));
    FieldsReadBack(coordinates, Str(KindText(kind)));
    KindReadsBack(kind);
  }

  // ------------------------------------------------------------ main results

  /** The body is, within 16 MiB of UTF-8 with or without a mark, an object of exactly these two fields. */
  ghost predicate Says(body: seq<Byte>, kind: GeometryType, coordinates: Json) {
    && |body| <= 16 * 1024 * 1024 && DecodeSig(body).Some?
    && var root := Loads(DecodeSig(body).value);
      && root.Ok? && root.value.Obj? && |root.value.entries| == 2
      && Member("coordinates", coordinates) in root.value.entries
      && Member("type", Str(if kind == Polygon then "Polygon" else "MultiPolygon")) in root.value.entries
  }

  lemma {:induction false} TwoEntries(entries: seq<Member>)
    requires |entries| == 2
    ensures HasGeometryFields(entries) <==>
      || (entries[0].key == "type" && entries[1].key == "coordinates")
      || (entries[0].key == "coordinates" && entries[1].key == "type")
  {
    assert |"coordinates"| == 11 && |"type"| == 4;
    assert entries == [entries[0], entries[1]];
  }

  lemma {:induction false} FieldAt(entries: seq<Member>, i: nat, key: string)
    requires |entries| == 2 && i < 2 && entries[i].key == key && entries[1 - i].key != key
    ensures FieldIndex(entries, key) == i
  {
  }

  lemma {:induction false} FieldsSay(entries: seq<Member>, t: Json, coordinates: Json)
    requires |entries| == 2
    ensures (HasGeometryFields(entries)
        && entries[FieldIndex(entries, "type")].value == t
        && entries[FieldIndex(entries, "coordinates")].value == coordinates)
      <==> Member("type", t) in entries && Member("coordinates", coordinates) in entries
  {
    TwoEntries(entries);
    assert |"coordinates"| == 11 && |"type"| == 4;
    if Member("type", t) in entries && Member("coordinates", coordinates) in entries {
      var i :| 0 <= i < 2 && entries[i] == Member("type", t);
      var j :| 0 <= j < 2 && entries[j] == Member("coordinates", coordinates);
      assert j == 1 - i;
      FieldAt(entries, i, "type");
      FieldAt(entries, j, "coordinates");
    }
  }

  lemma {:induction false} KindSays(t: Json, kind: GeometryType)
    ensures KindOf(t) == Ok(kind) <==> t == Str(if kind == Polygon then "Polygon" else "MultiPolygon")
  {
    assert |"Polygon"| == 7 && |"MultiPolygon"| == 12;
  }

  /** What the decoder takes for type and coordinates is what the document says. */
  lemma {:induction false} ReadBoundarySays(body: seq<Byte>, kind: GeometryType, coordinates: Json)
    ensures ReadBoundary(body) == Ok((kind, coordinates)) <==> Says(body, kind, coordinates)
  {
    var t := Str(if kind == Polygon then "Polygon" else "MultiPolygon");
    FieldsRead(body, t, coordinates);
    KindSays(t, kind);
    if ReadFields(body).Ok? {
      KindSays(ReadFields(body).value.0, kind);
    }
  }

  lemma {:induction false} FieldsRead(body: seq<Byte>, t: Json, coordinates: Json)
    ensures ReadFields(body) == Ok((t, coordinates)) <==>
      && |body| <= 16 * 1024 * 1024 && DecodeSig(body).Some?
      && var root := Loads(DecodeSig(body).value);
        && root.Ok? && root.value.Obj? && |root.value.entries| == 2
        && Member("coordinates", coordinates) in root.value.entries && Member("type", t) in root.value.entries
  {
    if |body| <= MAX_BOUNDARY_BYTES && DecodeSig(body).Some? {
      var root := Loads(DecodeSig(body).value);
      if root.Ok? && root.value.Obj? && |root.value.entries| == 2 {
        FieldsSay(root.value.entries, t, coordinates);
      }
    }
  }

  /** Every accepted boundary is a valid geometry: the one its document describes, position by position,
      with its positions counted exactly. */
  lemma {:induction false} AcceptedGeometry(body: seq<Byte>, fl: Floats, sha: seq<Byte> -> string)
    returns (g: Geometry, coordinates: Json)
    requires Sound(fl) && DecodeBoundary(body, fl, sha).Ok?
    ensures GeometryOk(g, fl) && Says(body, g.kind, coordinates) && CoordinatesAre(coordinates, g, fl)
    ensures DecodeBoundary(body, fl, sha).value == ArtifactOf(body, g, Total(g.polygons, POLYGON_COUNT), fl, sha)
  {
    var (kind, v) := ReadBoundary(body).value;
    coordinates := v;
    ReadBoundarySays(body, kind, coordinates);
    CoordinatesOk(kind, coordinates, fl);
    g := Geometry(kind, Coordinates(kind, coordinates, fl).value.0);
  }

  /** And every document that describes a valid geometry is accepted as that geometry. */
  lemma {:induction false} DescribedIsAccepted(
    body: seq<Byte>, g: Geometry, coordinates: Json, fl: Floats, sha: seq<Byte> -> string)
    requires Sound(fl) && GeometryOk(g, fl) && Says(body, g.kind, coordinates) && CoordinatesAre(coordinates, g, fl)
    ensures DecodeBoundary(body, fl, sha) == Ok(ArtifactOf(body, g, Total(g.polygons, POLYGON_COUNT), fl, sha))
  {
    ReadBoundarySays(body, g.kind, coordinates);
    CoordinatesRead(coordinates, g, fl);
  }

  lemma {:induction false} CanonicalDecodes(g: Geometry, fl: Floats, sha: seq<Byte> -> string)
    requires Sound(fl) && GeometryOk(g, fl)
    ensures var bytes := CanonicalBytes(GeometryJson(g, fl));
      DecodeBoundary(bytes, fl, sha) == Ok(ArtifactOf(bytes, g, Total(g.polygons, POLYGON_COUNT), fl, sha))
  {
    GeometryFits(g, fl);
    PlainCoordinates(g, fl);
    DocumentReadsBack(CoordinatesJson(g, fl), g.kind);
    PrintedCoordinates(g, fl);
    CoordinatesRead(CoordinatesJson(g, fl), g, fl);
  }

  /**
    Re-decoding the canonical form of any accepted boundary succeeds with the same bytes,
    digest, geometry type and position count, and that count is between 4 and 100000.
   */
  lemma {:induction false} RedecodingIsStable(body: seq<Byte>, fl: Floats, sha: seq<Byte> -> string)
    requires Sound(fl) && DecodeBoundary(body, fl, sha).Ok?
    ensures var a := DecodeBoundary(body, fl, sha).value;
      && DecodeBoundary(a.canonical, fl, sha) == Ok(a.(sourceDigest := a.geometryDigest))
      && 4 <= a.positionCount <= MAX_POSITIONS
      && |a.canonical| <= MAX_BOUNDARY_BYTES
  {
    var g, _ := AcceptedGeometry(body, fl, sha);
    CanonicalStable(body, g, Total(g.polygons, POLYGON_COUNT), fl, sha);
  }

  lemma {:induction false} CanonicalStable(
    body: seq<Byte>, g: Geometry, count: nat, fl: Floats, sha: seq<Byte> -> string)
    requires Sound(fl) && GeometryOk(g, fl) && count == Total(g.polygons, POLYGON_COUNT)
    ensures var a := ArtifactOf(body, g, count, fl, sha);
      && DecodeBoundary(a.canonical, fl, sha) == Ok(a.(sourceDigest := a.geometryDigest))
      && 4 <= a.positionCount <= MAX_POSITIONS
      && |a.canonical| <= MAX_BOUNDARY_BYTES
  {
    CanonicalDecodes(g, fl, sha);
    CanonicalFits(g, fl);
  }

  lemma {:induction false} CanonicalFits(g: Geometry, fl: Floats)
    requires Sound(fl) && GeometryOk(g, fl)
    ensures |CanonicalBytes(GeometryJson(g, fl))| <= MAX_BOUNDARY_BYTES
  {
    GeometryFits(g, fl);
    PlainGeometry(g, fl);
    PlainFits(GeometryJson(g, fl));
  }

  lemma {:induction false} PlainGeometry(g: Geometry, fl: Floats)
    requires Sound(fl) && GeometryOk(g, fl)
    ensures Plain(GeometryJson(g, fl))
  {
    PlainCoordinates(g, fl);
    PlainDocument(CoordinatesJson(g, fl), Str(KindText(g.kind)));
  }

  lemma {:induction false} PlainFits(v: Json)
    requires Plain(v)
    ensures |CanonicalBytes(v)| == Size(v)
  {
  }

  datatype LoadError = BoundaryInvalid(error: Error) | NotCanonical | DigestMismatch

  /** The boundary checks of `_load_geography`. */
  function LoadBoundary(
    raw: seq<Byte>, declared: string, fl: Floats, sha: seq<Byte> -> string): Result<Artifact, LoadError> {
    match DecodeBoundary(raw, fl, sha)
    case Err(e) => Err(BoundaryInvalid(e))
    case Ok(a) =>
      if a.canonical != raw then Err(NotCanonical)
      else if a.geometryDigest != declared then Err(DigestMismatch)
      else Ok(a)
  }

  /** The boundary part of `write_geography_revision`: the bytes and digest that are written. */
  function WriteBoundary(geometry: Json, fl: Floats, sha: seq<Byte> -> string): Result<(seq<Byte>, string), Error> {
    match DecodeBoundary(CanonicalBytes(geometry), fl, sha)
    case Err(e) => Err(e)
    case Ok(a) => Ok((a.canonical, a.geometryDigest))
  }

  /**
    The loader accepts exactly the files a writer can emit: canonical bytes of some accepted
    boundary, declared with their own digest.
   */
  lemma {:induction false} LoaderAcceptsExactly(raw: seq<Byte>, declared: string, fl: Floats, sha: seq<Byte> -> string)
    requires Sound(fl)
    ensures LoadBoundary(raw, declared, fl, sha).Ok? <==>
      exists body :: DecodeBoundary(body, fl, sha).Ok?
        && raw == DecodeBoundary(body, fl, sha).value.canonical
        && declared == DecodeBoundary(body, fl, sha).value.geometryDigest
  {
    forall body | DecodeBoundary(body, fl, sha).Ok?
      && raw == DecodeBoundary(body, fl, sha).value.canonical
      && declared == DecodeBoundary(body, fl, sha).value.geometryDigest
      ensures LoadBoundary(raw, declared, fl, sha).Ok?
    {
      RedecodingIsStable(body, fl, sha);
    }
  }

  lemma {:induction false} LoaderAcceptsWriter(geometry: Json, fl: Floats, sha: seq<Byte> -> string)
    requires Sound(fl) && WriteBoundary(geometry, fl, sha).Ok?
    ensures var (bytes, digest) := WriteBoundary(geometry, fl, sha).value;
      LoadBoundary(bytes, digest, fl, sha).Ok? && LoadBoundary(bytes, digest, fl, sha).value.canonical == bytes
  {
    RedecodingIsStable(CanonicalBytes(geometry), fl, sha);
  }

  /** Otherwise it names the check that failed: the decoder, the canonical form, or the digest. */
  lemma {:induction false} LoaderRefuses(raw: seq<Byte>, declared: string, fl: Floats, sha: seq<Byte> -> string)
    requires LoadBoundary(raw, declared, fl, sha).Err?
    ensures var e, decoded := LoadBoundary(raw, declared, fl, sha).error, DecodeBoundary(raw, fl, sha);
      if decoded.Err? then e == BoundaryInvalid(decoded.error)
      else if raw != decoded.value.canonical then e == NotCanonical
      else e == DigestMismatch && declared != "sha256:" + sha(raw)
  {
  }

  /** The writer fails only where the decoder does, and writes what it accepts. */
  lemma {:induction false} WriterWrites(geometry: Json, fl: Floats, sha: seq<Byte> -> string)
    ensures var w, decoded := WriteBoundary(geometry, fl, sha), DecodeBoundary(CanonicalBytes(geometry), fl, sha);
      && (decoded.Err? ==> w == Err(decoded.error))
      && (w.Ok? ==> w.value.0 == decoded.value.canonical && w.value.1 == "sha256:" + sha(w.value.0))
  {
  }
}
