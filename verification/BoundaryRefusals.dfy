/**
  Which refusal a boundary gets (packages/collection_application/src/collection_application/geography.py):
  the first check that fails, in document order.
 */
module BoundaryRefusals {
  import opened Text
  import opened Utf8
  import opened Json
  import opened Floats
  import opened JsonLayout
  import opened GeographyBoundary

  /** Size, encoding, syntax, shape and type are checked in this order, before any coordinate. */
  lemma {:induction false} BodyRefusals(body: seq<Byte>)
    ensures var r := ReadBoundary(body);
      if |body| > 16 * 1024 * 1024 then r == Err(TooLarge)
      else if DecodeSig(body) == None then r == Err(EncodingInvalid)
      else
        match Loads(DecodeSig(body).value)
        case Err(Syntax) => r == Err(JsonInvalid)
        case Err(DuplicateKey) => r == Err(DuplicateJsonKey)
        case Err(NonFinite) => r == Err(NonFiniteNumber)
        case Ok(root) =>
          if !root.Obj? then r == Err(ObjectInvalid)
          else if !TypeAndCoordinates(root.entries) then r == Err(FieldsInvalid)
          else
            var t := TypeOf(root.entries);
            if t.Arr? || t.Obj? then r == Err(Unhashable)
            else if t != Str("Polygon") && t != Str("MultiPolygon") then r == Err(TypeInvalid)
            else r.Ok?
  {
    if |body| <= 16 * 1024 * 1024 && DecodeSig(body).Some? {
      var root := Loads(DecodeSig(body).value);
      if root.Ok? && root.value.Obj? {
        TwoFields(root.value.entries);
      }
    }
  }

  ghost predicate TypeAndCoordinates(entries: seq<Member>) {
    && |entries| == 2
    && ((entries[0].key == "type" && entries[1].key == "coordinates")
        || (entries[0].key == "coordinates" && entries[1].key == "type"))
  }

  ghost function TypeOf(entries: seq<Member>): Json
    requires TypeAndCoordinates(entries)
  {
    if entries[0].key == "type" then entries[0].value else entries[1].value
  }

  lemma {:induction false} TwoFields(entries: seq<Member>)
    ensures HasGeometryFields(entries) <==> TypeAndCoordinates(entries)
    ensures TypeAndCoordinates(entries) ==> entries[FieldIndex(entries, "type")].value == TypeOf(entries)
  {
    if |entries| == 2 {
      TwoEntries(entries);
    }
    assert |"coordinates"| == 11 && |"type"| == 4;
  }

  // ------------------------------------------------------ the first bad item

  /** Everything before item `i` is accepted, and item `i` is bad at the count reached there. */
  ghost predicate FirstBad<T>(items: seq<Json>, count: nat, one: Reader<T>, bad: (Json, nat) -> bool, i: nat) {
    i < |items| && Each(items[..i], count, one).Ok? && bad(items[i], Each(items[..i], count, one).value.1)
  }

  lemma {:induction false} EachPrefix<T>(items: seq<Json>, count: nat, one: Reader<T>, i: nat)
    requires 1 <= i <= |items| && one(items[0], count).Ok?
    ensures var (x, n) := one(items[0], count).value;
      Each(items[..i], count, one) == Prepend([x], Each(items[1..][..i - 1], n, one))
  {
    assert items[..i][0] == items[0] && items[..i][1..] == items[1..][..i - 1];
  }

  lemma {:induction false} EachHead<T>(items: seq<Json>, count: nat, one: Reader<T>, i: nat)
    requires 1 <= i <= |items| && one(items[0], count).Err?
    ensures Each(items[..i], count, one).Err?
  {
    assert items[..i][0] == items[0];
  }

  /** A list fails with `e` exactly when its first item that is not accepted does. */
  lemma {:induction false} EachFails<T>(
    items: seq<Json>, count: nat, one: Reader<T>, e: Error, bad: (Json, nat) -> bool)
    requires forall v, n :: one(v, n) == Err(e) <==> bad(v, n)
    ensures Each(items, count, one) == Err(e) <==> exists i: nat :: FirstBad(items, count, one, bad, i)
    decreases |items|
  {
    if items != [] {
      if one(items[0], count).Err? {
        assert items[..0] == [];
        assert FirstBad(items, count, one, bad, 0) <==> one(items[0], count) == Err(e);
        forall i: nat | 1 <= i ensures !FirstBad(items, count, one, bad, i) {
          if i <= |items| {
            EachHead(items, count, one, i);
          }
        }
      } else {
        var (x, n) := one(items[0], count).value;
        EachFails(items[1..], n, one, e, bad);
        forall i: nat ensures FirstBad(items, count, one, bad, i + 1) <==> FirstBad(items[1..], n, one, bad, i) {
          if i < |items| - 1 {
            EachPrefix(items, count, one, i + 1);
          }
        }
        assert items[..0] == [];
        assert !FirstBad(items, count, one, bad, 0);
        Shifted(items, count, n, one, bad);
      }
    }
  }

  lemma {:induction false} Shifted<T>(items: seq<Json>, count: nat, n: nat, one: Reader<T>, bad: (Json, nat) -> bool)
    requires items != [] && !FirstBad(items, count, one, bad, 0)
    requires forall i: nat :: FirstBad(items, count, one, bad, i + 1) <==> FirstBad(items[1..], n, one, bad, i)
    ensures (exists i: nat :: FirstBad(items, count, one, bad, i))
      <==> (exists i: nat :: FirstBad(items[1..], n, one, bad, i))
  {
    if i: nat :| FirstBad(items, count, one, bad, i) {
      assert FirstBad(items, count, one, bad, (i - 1) + 1);
      assert FirstBad(items[1..], n, one, bad, i - 1);
    }
    if i: nat :| FirstBad(items[1..], n, one, bad, i) {
      assert FirstBad(items, count, one, bad, i + 1);
    }
  }

  // ---------------------------------------------------------- coordinates

  /** A number within the bound. */
  ghost predicate Fits(v: Json, bound: real, fl: Floats) {
    match v
    case Int(n) => fl.ofInt(n).Some? && fl.ofInt(n).value.Finite? && -bound <= fl.ofInt(n).value.value <= bound
    case Float(t) => fl.ofToken(t).Finite? && -bound <= fl.ofToken(t).value <= bound
    case _ => false
  }

  /** An integer `float` cannot hold overflows; anything else that is no number within the bound is invalid. */
  ghost predicate CoordinateRefused(v: Json, bound: real, fl: Floats, e: Error) {
    if v.Int? && fl.ofInt(v.n).None? then e == Overflow else !Fits(v, bound, fl) && e == CoordinateInvalid
  }

  /** Shape first, then longitude, latitude and the limit on positions. */
  ghost predicate PositionRefused(v: Json, count: nat, fl: Floats, e: Error) {
    if !v.Arr? || |v.items| != 2 then e == PositionInvalid
    else if !Fits(v.items[0], 180.0, fl) then CoordinateRefused(v.items[0], 180.0, fl, e)
    else if !Fits(v.items[1], 90.0, fl) then CoordinateRefused(v.items[1], 90.0, fl, e)
    else count >= 100_000 && e == PositionLimitExceeded
  }

  /** Four items, the first refused position, closure and three distinct vertices. */
  ghost predicate RingRefused(v: Json, count: nat, fl: Floats, e: Error) {
    if !v.Arr? || |v.items| < 4 then e == RingInvalid
    else
      || (exists i: nat :: FirstBad(v.items, count, PositionReader(fl), PositionBad(fl, e), i))
      || (exists ring, n :: Each(v.items, count, PositionReader(fl)) == Ok((ring, n)) && RingFaulty(ring, e))
  }

  ghost predicate RingFaulty(ring: Ring, e: Error) {
    if ring == [] || ring[0] != ring[|ring| - 1] then e == RingOpen else !Corners(ring) && e == RingDegenerate
  }

  /** Three positions before the last that differ from one another. */
  ghost predicate Corners(ring: Ring) {
    exists i, j, k :: CornersAt(ring, i, j, k)
  }

  ghost predicate CornersAt(ring: Ring, i: int, j: int, k: int) {
    && 0 <= i < |ring| - 1 && 0 <= j < |ring| - 1 && 0 <= k < |ring| - 1
    && ring[i] != ring[j] && ring[i] != ring[k] && ring[j] != ring[k]
  }

  /** A ring at least, and the first refused ring. */
  ghost predicate PolygonRefused(v: Json, count: nat, fl: Floats, e: Error) {
    if !v.Arr? || v.items == [] then e == CoordinatesInvalid
    else exists i: nat :: FirstBad(v.items, count, RingReader(fl), RingBad(fl, e), i)
  }

  /** The polygon, or the first refused polygon of a list of at least one. */
  ghost predicate CoordinatesRefused(kind: GeometryType, v: Json, fl: Floats, e: Error) {
    if kind == Polygon then PolygonRefused(v, 0, fl, e)
    else if !v.Arr? || v.items == [] then e == CoordinatesInvalid
    else exists i: nat :: FirstBad(v.items, 0, PolygonReader(fl), PolygonBad(fl, e), i)
  }

  ghost function PositionBad(fl: Floats, e: Error): (Json, nat) -> bool {
    (v: Json, n: nat) => PositionRefused(v, n, fl, e)
  }

  ghost function RingBad(fl: Floats, e: Error): (Json, nat) -> bool {
    (v: Json, n: nat) => RingRefused(v, n, fl, e)
  }

  ghost function PolygonBad(fl: Floats, e: Error): (Json, nat) -> bool {
    (v: Json, n: nat) => PolygonRefused(v, n, fl, e)
  }

  lemma {:induction false} CoordinateFails(v: Json, bound: real, fl: Floats, e: Error)
    ensures Coordinate(v, bound, fl) == Err(e) <==> CoordinateRefused(v, bound, fl, e)
    ensures Coordinate(v, bound, fl).Ok? <==> Fits(v, bound, fl)
  {
  }

  lemma {:induction false} PositionFails(v: Json, count: nat, fl: Floats, e: Error)
    ensures PositionAt(v, count, fl) == Err(e) <==> PositionRefused(v, count, fl, e)
    ensures PositionAt(v, count, fl) != Err(Unhashable)
  {
    if v.Arr? && |v.items| == 2 {
      CoordinateFails(v.items[0], 180.0, fl, e);
      CoordinateFails(v.items[1], 90.0, fl, e);
    }
  }

  lemma {:induction false} RingFaults(ring: Ring, count: nat, e: Error)
    ensures RingChecked(ring, count) == Err(e) <==> RingFaulty(ring, e)
  {
    if |Vertices(ring)| >= 3 {
      var i, j, k := DistinctCorners(ring);
    }
    if Corners(ring) {
      var i, j, k :| CornersAt(ring, i, j, k);
      CornersDistinct(ring, i, j, k);
    }
  }

  lemma {:induction false} CornersDistinct(ring: Ring, i: int, j: int, k: int)
    requires CornersAt(ring, i, j, k)
    ensures |Vertices(ring)| >= 3
  {
    assert ring[i] in Vertices(ring) && ring[j] in Vertices(ring) && ring[k] in Vertices(ring);
    ThreeIn(Vertices(ring));
  }

  lemma {:induction false} DistinctCorners(ring: Ring) returns (i: int, j: int, k: int)
    requires |Vertices(ring)| >= 3
    ensures CornersAt(ring, i, j, k)
  {
    var all := Vertices(ring);
    ThreeIn(all);
    var x, y, z :| x in all && y in all && z in all && x != y && x != z && y != z;
    i :| 0 <= i < |ring| - 1 && ring[i] == x;
    j :| 0 <= j < |ring| - 1 && ring[j] == y;
    k :| 0 <= k < |ring| - 1 && ring[k] == z;
  }

  lemma {:induction false} RingFails(v: Json, count: nat, fl: Floats, e: Error)
    ensures RingAt(v, count, fl) == Err(e) <==> RingRefused(v, count, fl, e)
  {
    if v.Arr? && |v.items| >= 4 {
      forall w: Json, n: nat ensures PositionReader(fl)(w, n) == Err(e) <==> PositionBad(fl, e)(w, n) {
        PositionFails(w, n, fl, e);
      }
      EachFails(v.items, count, PositionReader(fl), e, PositionBad(fl, e));
      var read := Each(v.items, count, PositionReader(fl));
      if read.Ok? {
        RingFaults(read.value.0, read.value.1, e);
      }
    }
  }

  lemma {:induction false} PolygonFails(v: Json, count: nat, fl: Floats, e: Error)
    ensures PolygonAt(v, count, fl) == Err(e) <==> PolygonRefused(v, count, fl, e)
  {
    if v.Arr? && v.items != [] {
      forall w: Json, n: nat ensures RingReader(fl)(w, n) == Err(e) <==> RingBad(fl, e)(w, n) {
        RingFails(w, n, fl, e);
      }
      EachFails(v.items, count, RingReader(fl), e, RingBad(fl, e));
    }
  }

  lemma {:induction false} EachOne<T>(v: Json, count: nat, one: Reader<T>, e: Error)
    ensures Each([v], count, one) == Err(e) <==> one(v, count) == Err(e)
  {
    assert [v][1..] == [];
  }

  lemma {:induction false} CoordinatesFail(kind: GeometryType, v: Json, fl: Floats, e: Error)
    ensures Coordinates(kind, v, fl) == Err(e) <==> CoordinatesRefused(kind, v, fl, e)
  {
    if kind == Polygon {
      EachOne(v, 0, PolygonReader(fl), e);
      PolygonFails(v, 0, fl, e);
    } else if v.Arr? && v.items != [] {
      forall w: Json, n: nat ensures PolygonReader(fl)(w, n) == Err(e) <==> PolygonBad(fl, e)(w, n) {
        PolygonFails(w, n, fl, e);
      }
      EachFails(v.items, 0, PolygonReader(fl), e, PolygonBad(fl, e));
    }
  }

  /** A document that passes the checks on its text, its fields and its type is refused exactly for
      the first thing wrong with its coordinates. */
  lemma {:induction false} DecodeRefuses(
    body: seq<Byte>, fl: Floats, sha: seq<Byte> -> string, kind: GeometryType, v: Json, e: Error)
    requires ReadBoundary(body) == Ok((kind, v))
    ensures DecodeBoundary(body, fl, sha) == Err(e) <==> CoordinatesRefused(kind, v, fl, e)
  {
    CoordinatesFail(kind, v, fl, e);
  }
}
