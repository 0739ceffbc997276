/**
  Values of the Overpass connector and the checks their constructors make
  (connectors/osm_overpass/src/osm_overpass/contracts.py).
 */
module OverpassContracts {
  import opened Text
  import opened Floats

  datatype ElementType = Node | Relation | Way

  datatype GeoPoint = GeoPoint(latitude: Double, longitude: Double)

  datatype TagFilter = TagFilter(key: string, values: seq<string>)

  datatype Spec = Spec(
    polygon: seq<GeoPoint>,
    elementTypes: seq<ElementType>,
    tagFilters: seq<TagFilter>,
    timeoutSeconds: int,
    maximumElements: int)

  function TypeText(t: ElementType): string {
    match t
    case Node => "node"
    case Relation => "relation"
    case Way => "way"
  }

  /** `sorted(set(xs)) == xs`: every element is below every later one. */
  predicate Ascending<T>(xs: seq<T>, lt: (T, T) -> bool) {
    forall i, j :: 0 <= i < j < |xs| ==> lt(xs[i], xs[j])
  }

  predicate TypeLt(a: ElementType, b: ElementType) {
    StrLt(TypeText(a), TypeText(b))
  }

  predicate ValuesLt(a: seq<string>, b: seq<string>) {
    b != [] && (a == [] || StrLt(a[0], b[0]) || (a[0] == b[0] && ValuesLt(a[1..], b[1..])))
  }

  /** Order of the identities `(key, values)`. */
  predicate FilterLt(a: TagFilter, b: TagFilter) {
    StrLt(a.key, b.key) || (a.key == b.key && ValuesLt(a.values, b.values))
  }

  predicate Within(d: Double, bound: real) {
    d.Finite? && -bound <= d.value <= bound
  }

  predicate ValidPoint(p: GeoPoint) {
    Within(p.latitude, 90.0) && Within(p.longitude, 180.0)
  }

  function ValueOf(d: Double): real {
    if d.Finite? then d.value else 0.0
  }

  function DistinctPoints(points: seq<GeoPoint>): set<(real, real)> {
    set i | 0 <= i < |points| :: (ValueOf(points[i].latitude), ValueOf(points[i].longitude))
  }

  predicate ValidPolygon(points: seq<GeoPoint>) {
    3 <= |points| <= 5_000 && |DistinctPoints(points)| >= 3
  }

  predicate TagKeyStart(c: char) {
    'A' <= c <= 'Z' || 'a' <= c <= 'z' || '0' <= c <= '9' || c == '_'
  }

  predicate TagKeyChar(c: char) {
    TagKeyStart(c) || c == '.' || c == ':' || c == '-'
  }

  predicate ValidTagKey(key: string) {
    1 <= |key| <= 255 && TagKeyStart(key[0]) && forall i :: 0 <= i < |key| ==> TagKeyChar(key[i])
  }

  predicate ValidTagValue(value: string) {
    1 <= |value| <= 255 && '\0' !in value && '\r' !in value && '\n' !in value
  }

  predicate ValidFilter(f: TagFilter) {
    && ValidTagKey(f.key)
    && 1 <= |f.values| <= 100
    && Ascending(f.values, StrLt)
    && forall i :: 0 <= i < |f.values| ==> ValidTagValue(f.values[i])
  }

  /** The checks of `OverpassQuerySpec.__post_init__`. */
  predicate SpecShape(s: Spec) {
    && s.elementTypes != [] && Ascending(s.elementTypes, TypeLt)
    && 1 <= |s.tagFilters| <= 100 && Ascending(s.tagFilters, FilterLt)
    && 1 <= s.timeoutSeconds <= 180
    && 1 <= s.maximumElements <= 100_000
  }

  /** A spec built from valid parts. */
  ghost predicate ValidSpec(s: Spec, fl: Floats) {
    && SpecShape(s) && ValidPolygon(s.polygon)
    && (forall i :: 0 <= i < |s.polygon| ==>
        ValidPoint(s.polygon[i]) && fl.isDouble(s.polygon[i].latitude) && fl.isDouble(s.polygon[i].longitude))
    && (forall i :: 0 <= i < |s.tagFilters| ==> ValidFilter(s.tagFilters[i]))
  }

  lemma {:induction false} ValuesLtIrreflexive(a: seq<string>)
    ensures !ValuesLt(a, a)
  {
    if a != [] {
      StrLtIrreflexive(a[0]);
      ValuesLtIrreflexive(a[1..]);
    }
  }

  lemma {:induction false} FilterLtIrreflexive(a: TagFilter)
    ensures !FilterLt(a, a)
  {
    StrLtIrreflexive(a.key);
    ValuesLtIrreflexive(a.values);
  }
}
