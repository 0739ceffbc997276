/**
  When `decode_boundary_geojson`
  (packages/collection_application/src/collection_application/geography.py) raises something other
  than its own error: the TypeError of a type that cannot be looked up in a set, or the
  OverflowError of an integer too large for a float.
 */
module BoundaryEscapes {
  import opened Text
  import opened Utf8
  import opened Json
  import opened CanonicalJson
  import opened Floats
  import opened JsonLayout
  import opened GeographyBoundary
  import opened BoundaryRefusals

  /** Not a GeographyBoundaryError. */
  predicate Foreign(e: Error) {
    e == Overflow || e == Unhashable
  }

  // ------------------------------------------------ no other error is foreign

  lemma {:induction false} EachNever<T>(items: seq<Json>, count: nat, one: Reader<T>, e: Error)
    requires forall v, n :: one(v, n) != Err(e)
    ensures Each(items, count, one) != Err(e)
    decreases |items|
  {
    if items != [] && one(items[0], count).Ok? {
      EachNever(items[1..], one(items[0], count).value.1, one, e);
    }
  }

  lemma {:induction false} RingHashable(v: Json, count: nat, fl: Floats)
    ensures RingAt(v, count, fl) != Err(Unhashable)
  {
    if v.Arr? && |v.items| >= 4 {
      forall w: Json, n: nat ensures PositionReader(fl)(w, n) != Err(Unhashable) {
        PositionFails(w, n, fl, Unhashable);
      }
      EachNever(v.items, count, PositionReader(fl), Unhashable);
    }
  }

  lemma {:induction false} PolygonHashable(v: Json, count: nat, fl: Floats)
    ensures PolygonAt(v, count, fl) != Err(Unhashable)
  {
    if v.Arr? && v.items != [] {
      forall w: Json, n: nat ensures RingReader(fl)(w, n) != Err(Unhashable) {
        RingHashable(w, n, fl);
      }
      EachNever(v.items, count, RingReader(fl), Unhashable);
    }
  }

  lemma {:induction false} CoordinatesHashable(kind: GeometryType, v: Json, fl: Floats)
    ensures Coordinates(kind, v, fl) != Err(Unhashable)
  {
    forall w: Json, n: nat ensures PolygonReader(fl)(w, n) != Err(Unhashable) {
      PolygonHashable(w, n, fl);
    }
    EachNever([v], 0, PolygonReader(fl), Unhashable);
    if v.Arr? {
      EachNever(v.items, 0, PolygonReader(fl), Unhashable);
    }
  }

  lemma {:induction false} FieldsAreOwned(body: seq<Byte>)
    ensures ReadFields(body).Err? ==> !Foreign(ReadFields(body).error)
  {
  }

  // ------------------------------------------------------------ main results

  /** A document that passes the checks on its text and fields, and then has a list or an object as
      its type, or an overflowing integer as the first thing wrong with its coordinates. */
  ghost predicate Escapes(body: seq<Byte>, fl: Floats) {
    ReadFields(body).Ok? && (
      var (t, coordinates) := ReadFields(body).value;
      || t.Arr? || t.Obj?
      || (KindOf(t).Ok? && CoordinatesRefused(KindOf(t).value, coordinates, fl, Overflow)))
  }

  /** Decoding raises something other than its own error exactly for such documents. */
  lemma {:induction false} DecodeEscapes(body: seq<Byte>, fl: Floats, sha: seq<Byte> -> string)
    ensures (DecodeBoundary(body, fl, sha).Err? && Foreign(DecodeBoundary(body, fl, sha).error))
      <==> Escapes(body, fl)
  {
    FieldsAreOwned(body);
    if ReadFields(body).Ok? {
      var (t, coordinates) := ReadFields(body).value;
      if KindOf(t).Ok? {
        CoordinatesFail(KindOf(t).value, coordinates, fl, Overflow);
        CoordinatesHashable(KindOf(t).value, coordinates, fl);
      }
    }
  }

  lemma {:induction false} EmptyDocumentFits()
    ensures |CanonicalBytes(Document(Arr([]), Arr([])))| <= MAX_BOUNDARY_BYTES
  {
    PlainArr([]);
    ArrSize([]);
    assert |"coordinates"| == 11 && |"type"| == 4;
    PairSize(Member("coordinates", Arr([])), Member("type", Arr([])));
    PlainDocument(Arr([]), Arr([]));
  }

  lemma {:induction false} ListTypeEscapes(
    body: seq<Byte>, t: Json, coordinates: Json, fl: Floats, sha: seq<Byte> -> string)
    requires ReadFields(body) == Ok((t, coordinates)) && t.Arr?
    ensures DecodeBoundary(body, fl, sha) == Err(Unhashable)
  {
  }

  /** A boundary whose type is an empty list raises a TypeError. */
  lemma {:induction false} ListAsType(fl: Floats, sha: seq<Byte> -> string, body: seq<Byte>)
    requires body == CanonicalBytes(Document(Arr([]), Arr([])))
    ensures DecodeBoundary(body, fl, sha) == Err(Unhashable)
  {
    PlainArr([]);
    EmptyDocumentFits();
    FieldsReadBack(Arr([]), Arr([]));
    ListTypeEscapes(body, Arr([]), Arr([]), fl, sha);
  }

  /** A coordinate too big for a float raises an OverflowError. */
  lemma {:induction false} HugeCoordinate(n: int, fl: Floats, sha: seq<Byte> -> string, body: seq<Byte>, ring: Json)
    requires fl.ofInt(n).None?
    requires ring == Arr([Arr([Int(n), Int(0)]), Null, Null, Null])
    requires body == CanonicalBytes(Document(Arr([ring]), Str("Polygon"))) && |body| <= MAX_BOUNDARY_BYTES
    ensures DecodeBoundary(body, fl, sha) == Err(Overflow)
  {
    PlainArr([Int(n), Int(0)]);
    PlainArr(ring.items);
    PlainArr([ring]);
    FieldsReadBack(Arr([ring]), Str("Polygon"));
    HugeRing(n, fl, ring);
    EachOne(ring, 0, RingReader(fl), Overflow);
    EachOne(Arr([ring]), 0, PolygonReader(fl), Overflow);
  }

  lemma {:induction false} HugeRing(n: int, fl: Floats, ring: Json)
    requires fl.ofInt(n).None? && ring == Arr([Arr([Int(n), Int(0)]), Null, Null, Null])
    ensures RingReader(fl)(ring, 0) == Err(Overflow)
  {
    PositionFails(ring.items[0], 0, fl, Overflow);
    assert PositionReader(fl)(ring.items[0], 0) == Err(Overflow);
  }
}
