/**
  Splitting a filter list into Overpass queries
  (connectors/osm_overpass/src/osm_overpass/planning.py and query.py).

  Queries are modelled down to their selectors.  `render` stands for the query text built from
  them, of which only the size limit and the digest matter here; `write` is the query
  specification writer; `inside` stands for the server's polygon test; `sha` is SHA-256 in
  hexadecimal.
 */
module OverpassPlanning {
  import opened Text
  import opened Utf8
  import opened Floats
  import opened OverpassContracts
  import opened OverpassSpec

  const MAX_QUERY_BYTES := 256 * 1024

  /** One union member: elements of a type, with a tag whose value is listed, in a polygon. */
  datatype Selector = Selector(elementType: ElementType, key: string, values: seq<string>, polygon: seq<GeoPoint>)

  type Writer = Spec -> seq<Byte>

  type Renderer = (seq<Selector>, int) -> seq<Byte>

  datatype Planned = Planned(position: nat, spec: Spec, bytes: seq<Byte>, specDigest: string, queryDigest: string)

  datatype PlanError =
    | FiltersPerQueryInvalid | NoFilters | SpecInvalid | QueryTooLarge | TooManyQueries | DuplicateSpecs

  // ---------------------------------------------------------- query building

  function SelectorsOf(t: ElementType, filters: seq<TagFilter>, polygon: seq<GeoPoint>): (r: seq<Selector>)
    ensures |r| == |filters|
    ensures forall i :: 0 <= i < |filters| ==> r[i] == Selector(t, filters[i].key, filters[i].values, polygon)
  {
    seq(|filters|, i requires 0 <= i < |filters| => Selector(t, filters[i].key, filters[i].values, polygon))
  }

  function SelectorsFrom(types: seq<ElementType>, filters: seq<TagFilter>, polygon: seq<GeoPoint>): seq<Selector> {
    if types == [] then [] else SelectorsOf(types[0], filters, polygon) + SelectorsFrom(types[1..], filters, polygon)
  }

  function Selectors(s: Spec): seq<Selector> {
    SelectorsFrom(s.elementTypes, s.tagFilters, s.polygon)
  }

  lemma {:induction false} NextType(before: seq<Selector>, s: Spec, i: nat)
    requires i < |s.elementTypes|
    requires before + SelectorsFrom(s.elementTypes[i..], s.tagFilters, s.polygon) == Selectors(s)
    ensures before + SelectorsOf(s.elementTypes[i], s.tagFilters, s.polygon)
      + SelectorsFrom(s.elementTypes[i + 1..], s.tagFilters, s.polygon) == Selectors(s)
  {
    assert s.elementTypes[i..][1..] == s.elementTypes[i + 1..];
  }

  /** The selectors run through the filters once for each type, in order. */
  lemma {:induction false} SelectorAt(s: Spec, i: nat, j: nat)
    requires i < |s.elementTypes| && j < |s.tagFilters|
    ensures |Selectors(s)| == |s.elementTypes| * |s.tagFilters|
    ensures 0 <= i * |s.tagFilters| + j < |Selectors(s)|
    ensures Selectors(s)[i * |s.tagFilters| + j] ==
      Selector(s.elementTypes[i], s.tagFilters[j].key, s.tagFilters[j].values, s.polygon)
  {
    SelectorFrom(s.elementTypes, s.tagFilters, s.polygon, i, j);
  }

  lemma {:induction false} SelectorCount(types: seq<ElementType>, filters: seq<TagFilter>, polygon: seq<GeoPoint>)
    ensures |SelectorsFrom(types, filters, polygon)| == |types| * |filters|
  {
    if types != [] {
      SelectorCount(types[1..], filters, polygon);
      assert (|types| - 1) * |filters| + |filters| == |types| * |filters|;
    }
  }

  lemma {:induction false} SelectorFrom(
    types: seq<ElementType>, filters: seq<TagFilter>, polygon: seq<GeoPoint>, i: nat, j: nat)
    requires i < |types| && j < |filters|
    ensures |SelectorsFrom(types, filters, polygon)| == |types| * |filters|
    ensures 0 <= i * |filters| + j < |types| * |filters|
    ensures SelectorsFrom(types, filters, polygon)[i * |filters| + j] ==
      Selector(types[i], filters[j].key, filters[j].values, polygon)
  {
    SelectorCount(types, filters, polygon);
    SelectorCount(types[1..], filters, polygon);
    RowBound(i, j, |types|, |filters|);
    if i > 0 {
      SelectorFrom(types[1..], filters, polygon, i - 1, j);
      assert (i - 1) * |filters| + j + |filters| == i * |filters| + j;
    }
  }

  lemma RowBound(i: nat, j: nat, m: nat, n: nat)
    requires i < m && j < n
    ensures i * n + j < m * n
  {
    assert (m - i - 1) * n >= 0;
    assert m * n == i * n + n + (m - i - 1) * n;
  }

  /** The nested loops of `build_overpass_query` and its size limit. */
  method BuildQuery(s: Spec, render: Renderer) returns (r: Result<seq<Byte>, PlanError>)
    ensures r.Ok? <==> |render(Selectors(s), s.timeoutSeconds)| <= 256 * 1024
    ensures r.Ok? ==> r.value == render(Selectors(s), s.timeoutSeconds)
    ensures r.Err? ==> r.error == QueryTooLarge
  {
    var selectors: seq<Selector> := [];
    assert s.elementTypes[0..] == s.elementTypes && [] + Selectors(s) == Selectors(s);
    for i := 0 to |s.elementTypes|
      invariant selectors + SelectorsFrom(s.elementTypes[i..], s.tagFilters, s.polygon) == Selectors(s)
    {
      ghost var before := selectors;
      var all := SelectorsOf(s.elementTypes[i], s.tagFilters, s.polygon);
      for j := 0 to |s.tagFilters|
        invariant selectors == before + all[..j]
      {
        selectors := selectors + [Selector(s.elementTypes[i], s.tagFilters[j].key, s.tagFilters[j].values, s.polygon)];
        assert all[..j + 1] == all[..j] + [all[j]];
      }
      assert all[..|s.tagFilters|] == all;
      NextType(before, s, i);
    }
    assert selectors + [] == selectors;
    var query := render(selectors, s.timeoutSeconds);
    if |query| > MAX_QUERY_BYTES {
      return Err(QueryTooLarge);
    }
    return Ok(query);
  }

  // ---------------------------------------------------------------- planning

  /** Consecutive slices of at most `k` filters. */
  function Chunks(filters: seq<TagFilter>, k: nat): seq<seq<TagFilter>>
    requires k > 0
  {
    if filters == [] then []
    else if |filters| <= k then [filters]
    else [filters[..k]] + Chunks(filters[k..], k)
  }

  function SpecOf(base: Spec, chunk: seq<TagFilter>): Spec {
    base.(tagFilters := chunk)
  }

  ghost predicate Buildable(s: Spec, render: Renderer) {
    SpecShape(s) && |render(Selectors(s), s.timeoutSeconds)| <= 256 * 1024
  }

  predicate DistinctDigests(queries: seq<Planned>) {
    forall i, j :: 0 <= i < j < |queries| ==> queries[i].specDigest != queries[j].specDigest
  }

  /**
    A query for one chunk: it has that chunk's filters and every other argument of the plan, and
    carries its own document with the digests of the document and of the query text.
   */
  ghost predicate Carries(
    q: Planned, chunk: seq<TagFilter>, base: Spec, write: Writer, sha: seq<Byte> -> string, render: Renderer)
  {
    && q.spec.tagFilters == chunk
    && q.spec.polygon == base.polygon
    && q.spec.elementTypes == base.elementTypes
    && q.spec.timeoutSeconds == base.timeoutSeconds
    && q.spec.maximumElements == base.maximumElements
    && q.bytes == write(q.spec)
    && q.specDigest == "sha256:" + sha(q.bytes)
    && q.queryDigest == "sha256:" + sha(render(Selectors(q.spec), base.timeoutSeconds))
  }

  /** The queries planned for these chunks, one per chunk, numbered from zero. */
  ghost predicate PlannedFor(
    queries: seq<Planned>, chunks: seq<seq<TagFilter>>, base: Spec, write: Writer, sha: seq<Byte> -> string,
    render: Renderer)
  {
    && |queries| == |chunks|
    && forall i :: 0 <= i < |chunks| ==>
        queries[i].position == i && Carries(queries[i], chunks[i], base, write, sha, render)
  }

  /** When planning succeeds: each chunk makes a valid, small enough query, and no two agree. */
  ghost predicate Plannable(base: Spec, k: int, write: Writer, sha: seq<Byte> -> string, render: Renderer) {
    && 1 <= k <= 20 && base.tagFilters != []
    && var chunks := Chunks(base.tagFilters, k);
    && |chunks| <= 100
    && AllBuildable(base, chunks, render)
    && forall i, j :: 0 <= i < j < |chunks| ==>
        sha(write(SpecOf(base, chunks[i]))) != sha(write(SpecOf(base, chunks[j])))
  }

  /** The error of the first chunk that makes no query: its spec is refused, or its text is too long. */
  ghost predicate FirstFault(base: Spec, chunks: seq<seq<TagFilter>>, render: Renderer, e: PlanError, i: nat) {
    && i < |chunks|
    && (forall j :: 0 <= j < i ==> Buildable(SpecOf(base, chunks[j]), render))
    && !Buildable(SpecOf(base, chunks[i]), render)
    && e == if SpecShape(SpecOf(base, chunks[i])) then QueryTooLarge else SpecInvalid
  }

  /** `plan_overpass_queries`; `base` carries every argument but `filters_per_query`. */
  method Plan(base: Spec, k: int, write: Writer, sha: seq<Byte> -> string, render: Renderer)
    returns (r: Result<seq<Planned>, PlanError>)
    ensures r.Ok? <==> Plannable(base, k, write, sha, render)
    ensures r.Ok? ==> PlannedFor(r.value, Chunks(base.tagFilters, k), base, write, sha, render)
    ensures r == Err(FiltersPerQueryInvalid) <==> k < 1 || k > 20
    ensures r == Err(NoFilters) <==> 1 <= k <= 20 && base.tagFilters == []
    ensures 1 <= k <= 20 && base.tagFilters != [] && r.Err? ==>
      var chunks := Chunks(base.tagFilters, k);
      if AllBuildable(base, chunks, render) then r.error == if |chunks| > 100 then TooManyQueries else DuplicateSpecs
      else exists i: nat :: FirstFault(base, chunks, render, r.error, i)
  {
    if !(1 <= k <= 20) {
      return Err(FiltersPerQueryInvalid);
    }
    if base.tagFilters == [] {
      return Err(NoFilters);
    }
    var built := PlanChunks(base, k, write, sha, render);
    if built.Err? {
      return built;
    }
    if |built.value| > 100 {
      return Err(TooManyQueries);
    }
    DigestsDiffer(built.value, Chunks(base.tagFilters, k), base, write, sha, render);
    if !DistinctDigests(built.value) {
      return Err(DuplicateSpecs);
    }
    return built;
  }

  /** Every chunk makes a query that can be built. */
  ghost predicate AllBuildable(base: Spec, chunks: seq<seq<TagFilter>>, render: Renderer) {
    forall i :: 0 <= i < |chunks| ==> Buildable(SpecOf(base, chunks[i]), render)
  }

  /** The loop over the chunks: one query each, unless some query cannot be built. */
  method PlanChunks(base: Spec, k: int, write: Writer, sha: seq<Byte> -> string, render: Renderer)
    returns (r: Result<seq<Planned>, PlanError>)
    requires k > 0
    ensures r.Ok? <==> AllBuildable(base, Chunks(base.tagFilters, k), render)
    ensures r.Err? ==> exists i: nat :: FirstFault(base, Chunks(base.tagFilters, k), render, r.error, i)
    ensures r.Ok? ==> PlannedFor(r.value, Chunks(base.tagFilters, k), base, write, sha, render)
  {
    var filters := base.tagFilters;
    var planned: seq<Planned> := [];
    ghost var done: seq<seq<TagFilter>> := [];
    var offset := 0;
    assert filters[0..] == filters && [] + Chunks(filters, k) == Chunks(filters, k);
    while offset < |filters|
      invariant 0 <= offset <= |filters|
      invariant Chunks(filters, k) == done + Chunks(filters[offset..], k)
      invariant forall i :: 0 <= i < |done| ==> Chunks(filters, k)[i] == done[i]
      invariant PlannedFor(planned, done, base, write, sha, render)
      invariant AllBuildable(base, done, render)
    {
      var end := if offset + k <= |filters| then offset + k else |filters|;
      var chunk := filters[offset..end];
      NextChunk(filters, k, offset, end, done);
      var spec := SpecOf(base, chunk);
      if !SpecShape(spec) {
        assert FirstFault(base, Chunks(filters, k), render, SpecInvalid, |done|);
        return Err(SpecInvalid);
      }
      var query := BuildQuery(spec, render);
      if query.Err? {
        assert FirstFault(base, Chunks(filters, k), render, QueryTooLarge, |done|);
        return Err(query.error);
      }
      var bytes := write(spec);
      var next := Planned(|planned|, spec, bytes, "sha256:" + sha(bytes), "sha256:" + sha(query.value));
      OneMorePlanned(planned, next, done, chunk, base, write, sha, render);
      planned := planned + [next];
      done := done + [chunk];
      offset := end;
    }
    assert filters[offset..] == [] && done + [] == done;
    return Ok(planned);
  }

  lemma {:induction false} ChunksStep(filters: seq<TagFilter>, k: nat)
    requires k > 0 && filters != []
    ensures var n := if |filters| <= k then |filters| else k;
      Chunks(filters, k) == [filters[..n]] + Chunks(filters[n..], k)
  {
    if |filters| <= k {
      assert filters[..|filters|] == filters && filters[|filters|..] == [];
    }
  }

  lemma {:induction false} NextChunk(filters: seq<TagFilter>, k: nat, offset: nat, end: nat, done: seq<seq<TagFilter>>)
    requires k > 0 && offset < |filters| && end == (if offset + k <= |filters| then offset + k else |filters|)
    requires Chunks(filters, k) == done + Chunks(filters[offset..], k)
    ensures Chunks(filters, k) == done + [filters[offset..end]] + Chunks(filters[end..], k)
    ensures |done| < |Chunks(filters, k)| && Chunks(filters, k)[|done|] == filters[offset..end]
  {
    var left := filters[offset..];
    ChunksStep(left, k);
    assert left[..end - offset] == filters[offset..end] && left[end - offset..] == filters[end..];
  }

  lemma {:induction false} OneMorePlanned(
    queries: seq<Planned>, next: Planned, chunks: seq<seq<TagFilter>>, chunk: seq<TagFilter>,
    base: Spec, write: Writer, sha: seq<Byte> -> string, render: Renderer)
    requires PlannedFor(queries, chunks, base, write, sha, render)
    requires next.position == |queries| && Carries(next, chunk, base, write, sha, render)
    ensures PlannedFor(queries + [next], chunks + [chunk], base, write, sha, render)
  {
  }

  lemma {:induction false} DigestText(a: string, b: string)
    ensures "sha256:" + a == "sha256:" + b <==> a == b
  {
    assert ("sha256:" + a)[7..] == a && ("sha256:" + b)[7..] == b;
  }

  lemma {:induction false} DigestsDiffer(
    queries: seq<Planned>, chunks: seq<seq<TagFilter>>, base: Spec, write: Writer, sha: seq<Byte> -> string,
    render: Renderer)
    requires PlannedFor(queries, chunks, base, write, sha, render)
    ensures DistinctDigests(queries) <==>
      forall i, j :: 0 <= i < j < |chunks| ==>
        sha(write(SpecOf(base, chunks[i]))) != sha(write(SpecOf(base, chunks[j])))
  {
    forall i, j | 0 <= i < j < |chunks|
      ensures queries[i].specDigest == queries[j].specDigest <==>
        sha(write(SpecOf(base, chunks[i]))) == sha(write(SpecOf(base, chunks[j])))
    {
      DigestText(sha(write(SpecOf(base, chunks[i]))), sha(write(SpecOf(base, chunks[j]))));
    }
  }

  // -------------------------------------------------------- chunks partition

  function Flatten(chunks: seq<seq<TagFilter>>): seq<TagFilter> {
    if chunks == [] then [] else chunks[0] + Flatten(chunks[1..])
  }

  /** The chunks concatenate to the input; none is empty or longer than `k`. */
  lemma {:induction false} ChunksPartition(filters: seq<TagFilter>, k: nat)
    requires k > 0
    ensures Flatten(Chunks(filters, k)) == filters
    ensures forall c :: c in Chunks(filters, k) ==> 1 <= |c| <= k
    ensures filters != [] ==> Chunks(filters, k) != []
    decreases |filters|
  {
    if filters != [] {
      var n := if |filters| <= k then |filters| else k;
      ChunksStep(filters, k);
      ChunksPartition(filters[n..], k);
      assert Chunks(filters, k)[1..] == Chunks(filters[n..], k);
      assert filters == filters[..n] + filters[n..];
    }
  }

  function Slice(filters: seq<TagFilter>, k: nat, at: int): seq<TagFilter>
    requires 0 <= at < |filters|
  {
    if at + k <= |filters| then filters[at..at + k] else filters[at..]
  }

  /** Chunk `i` is the slice of `k` filters from `i * k` on; only the last may be shorter. */
  lemma {:induction false} ChunkAt(filters: seq<TagFilter>, k: nat, i: nat)
    requires k > 0
    ensures 0 <= i * k
    ensures i < |Chunks(filters, k)| <==> i * k < |filters|
    ensures i < |Chunks(filters, k)| ==> Chunks(filters, k)[i] == Slice(filters, k, i * k)
    decreases i
  {
    if i == 0 {
      if filters != [] {
        ChunksStep(filters, k);
      }
    } else {
      assert i * k == (i - 1) * k + k;
      LaterChunk(filters, k, i, (i - 1) * k);
    }
  }

  lemma {:induction false} LaterChunk(filters: seq<TagFilter>, k: nat, i: nat, at: int)
    requires k > 0 && i > 0 && at == (i - 1) * k
    ensures 0 <= at
    ensures i < |Chunks(filters, k)| <==> at + k < |filters|
    ensures i < |Chunks(filters, k)| ==> Chunks(filters, k)[i] == Slice(filters, k, at + k)
    decreases i, 0
  {
    ChunkAt(filters, k, i - 1);
    if filters != [] {
      var n := if |filters| <= k then |filters| else k;
      ChunksStep(filters, k);
      ChunkAt(filters[n..], k, i - 1);
    }
  }

  lemma {:induction false} InFlatten(chunks: seq<seq<TagFilter>>, f: TagFilter)
    ensures f in Flatten(chunks) <==> exists c :: c in chunks && f in c
  {
    if chunks != [] {
      InFlatten(chunks[1..], f);
      assert chunks == [chunks[0]] + chunks[1..];
      if exists c :: c in chunks && f in c {
        var c :| c in chunks && f in c;
        assert c == chunks[0] || c in chunks[1..];
      }
    }
  }

  lemma {:induction false} ChunksDiffer(filters: seq<TagFilter>, k: nat)
    requires k > 0 && Ascending(filters, FilterLt)
    ensures Distinct(Chunks(filters, k))
    decreases |filters|
  {
    if filters != [] {
      var n := if |filters| <= k then |filters| else k;
      var rest := filters[n..];
      ChunksStep(filters, k);
      ChunksDiffer(rest, k);
      ChunksPartition(rest, k);
      var chunks, others := Chunks(filters, k), Chunks(rest, k);
      forall j | 0 <= j < |others| ensures chunks[0] != others[j] {
        FirstChunkDiffers(filters, n, others, others[j]);
      }
      forall i, j | 0 <= i < j < |chunks| ensures chunks[i] != chunks[j] {
        assert chunks[j] == others[j - 1];
        if i > 0 {
          assert chunks[i] == others[i - 1];
        }
      }
    }
  }

  lemma {:induction false} FirstChunkDiffers(
    filters: seq<TagFilter>, n: nat, others: seq<seq<TagFilter>>, c: seq<TagFilter>)
    requires 0 < n <= |filters| && Ascending(filters, FilterLt)
    requires Flatten(others) == filters[n..] && c in others && c != []
    ensures filters[..n] != c
  {
    InFlatten(others, c[0]);
    var m :| 0 <= m < |filters[n..]| && filters[n..][m] == c[0];
    assert FilterLt(filters[0], filters[n + m]);
    FilterLtIrreflexive(filters[0]);
    assert filters[..n][0] == filters[0];
  }

  // ------------------------------------------------------------ what it means

  datatype Element = Element(kind: ElementType, id: nat, tags: map<string, string>)

  predicate MatchesFilter(f: TagFilter, e: Element) {
    f.key in e.tags && e.tags[f.key] in f.values
  }

  ghost predicate Selects(selectors: seq<Selector>, e: Element, inside: (Element, seq<GeoPoint>) -> bool) {
    exists i :: 0 <= i < |selectors| && SelectedBy(selectors[i], e, inside)
  }

  predicate SelectedBy(s: Selector, e: Element, inside: (Element, seq<GeoPoint>) -> bool) {
    e.kind == s.elementType && MatchesFilter(TagFilter(s.key, s.values), e) && inside(e, s.polygon)
  }

  ghost predicate MatchesAny(filters: seq<TagFilter>, e: Element) {
    exists f :: f in filters && MatchesFilter(f, e)
  }

  /** A query selects the listed types that match one of its filters inside its polygon. */
  lemma {:induction false} QuerySelects(
    types: seq<ElementType>, filters: seq<TagFilter>, polygon: seq<GeoPoint>, e: Element,
    inside: (Element, seq<GeoPoint>) -> bool)
    ensures Selects(SelectorsFrom(types, filters, polygon), e, inside) <==>
      e.kind in types && MatchesAny(filters, e) && inside(e, polygon)
  {
    if types != [] {
      var head, tail := SelectorsOf(types[0], filters, polygon), SelectorsFrom(types[1..], filters, polygon);
      QuerySelects(types[1..], filters, polygon, e, inside);
      assert types == [types[0]] + types[1..];
      SelectsConcat(head, tail, e, inside);
      if e.kind == types[0] && MatchesAny(filters, e) && inside(e, polygon) {
        var f :| f in filters && MatchesFilter(f, e);
        var i :| 0 <= i < |filters| && filters[i] == f;
        assert SelectedBy(head[i], e, inside);
      }
      if Selects(head, e, inside) {
        var i :| 0 <= i < |head| && SelectedBy(head[i], e, inside);
        assert MatchesFilter(filters[i], e);
      }
    }
  }

  lemma {:induction false} SelectsConcat(
    a: seq<Selector>, b: seq<Selector>, e: Element, inside: (Element, seq<GeoPoint>) -> bool)
    ensures Selects(a + b, e, inside) <==> Selects(a, e, inside) || Selects(b, e, inside)
  {
    if Selects(a, e, inside) {
      var i :| 0 <= i < |a| && SelectedBy(a[i], e, inside);
      assert SelectedBy((a + b)[i], e, inside);
    }
    if Selects(b, e, inside) {
      var i :| 0 <= i < |b| && SelectedBy(b[i], e, inside);
      assert SelectedBy((a + b)[|a| + i], e, inside);
    }
  }

  /** Splitting preserves meaning: the plan selects what one query over all filters would. */
  lemma {:induction false} PlanSelects(
    queries: seq<Planned>, base: Spec, k: nat, write: Writer, sha: seq<Byte> -> string, render: Renderer,
    e: Element, inside: (Element, seq<GeoPoint>) -> bool)
    requires k > 0 && PlannedFor(queries, Chunks(base.tagFilters, k), base, write, sha, render)
    ensures (exists i :: 0 <= i < |queries| && Selects(Selectors(queries[i].spec), e, inside)) <==>
      e.kind in base.elementTypes && MatchesAny(base.tagFilters, e) && inside(e, base.polygon)
  {
    var chunks := Chunks(base.tagFilters, k);
    forall i | 0 <= i < |chunks|
      ensures Selects(Selectors(queries[i].spec), e, inside) <==>
        e.kind in base.elementTypes && MatchesAny(chunks[i], e) && inside(e, base.polygon)
    {
      QuerySelects(base.elementTypes, chunks[i], base.polygon, e, inside);
    }
    ChunksMatch(base.tagFilters, k, e);
    if e.kind in base.elementTypes && MatchesAny(base.tagFilters, e) && inside(e, base.polygon) {
      var i :| 0 <= i < |chunks| && MatchesAny(chunks[i], e);
      assert Selects(Selectors(queries[i].spec), e, inside);
    }
  }

  lemma {:induction false} ChunksMatch(filters: seq<TagFilter>, k: nat, e: Element)
    requires k > 0
    ensures MatchesAny(filters, e) ==>
      exists i :: 0 <= i < |Chunks(filters, k)| && MatchesAny(Chunks(filters, k)[i], e)
    ensures forall i :: 0 <= i < |Chunks(filters, k)| && MatchesAny(Chunks(filters, k)[i], e) ==>
      MatchesAny(filters, e)
  {
    var chunks := Chunks(filters, k);
    ChunksPartition(filters, k);
    if MatchesAny(filters, e) {
      var f :| f in filters && MatchesFilter(f, e);
      InFlatten(chunks, f);
      var c :| c in chunks && f in c;
      var i :| 0 <= i < |chunks| && chunks[i] == c;
      assert MatchesAny(chunks[i], e);
    }
    forall i | 0 <= i < |chunks| && MatchesAny(chunks[i], e) ensures MatchesAny(filters, e) {
      var f :| f in chunks[i] && MatchesFilter(f, e);
      InFlatten(chunks, f);
    }
  }

  /** `_query_spec_bytes` as the planner's writer. */
  function SpecWriter(fl: Floats): Writer {
    (s: Spec) => SpecBytes(s, fl)
  }

  /** A base whose polygon and filters were constructed by their own types. */
  ghost predicate ValidParts(base: Spec, fl: Floats) {
    && ValidPolygon(base.polygon)
    && (forall i :: 0 <= i < |base.polygon| ==>
        ValidPoint(base.polygon[i]) && fl.isDouble(base.polygon[i].latitude) && fl.isDouble(base.polygon[i].longitude))
    && (forall f :: f in base.tagFilters ==> ValidFilter(f))
  }

  lemma {:induction false} ChunkSpecValid(base: Spec, k: nat, i: nat, fl: Floats)
    requires k > 0 && ValidParts(base, fl) && i < |Chunks(base.tagFilters, k)|
    requires SpecShape(SpecOf(base, Chunks(base.tagFilters, k)[i]))
    ensures ValidSpec(SpecOf(base, Chunks(base.tagFilters, k)[i]), fl)
    ensures 1 <= |Chunks(base.tagFilters, k)[i]| <= k
  {
    var chunks := Chunks(base.tagFilters, k);
    ChunksPartition(base.tagFilters, k);
    assert chunks[i] in chunks;
    forall f | f in chunks[i] ensures f in base.tagFilters {
      InFlatten(chunks, f);
    }
  }

  /** The worker decodes every planned query document to the spec that was planned. */
  lemma {:induction false} PlannedQueriesDecode(
    queries: seq<Planned>, base: Spec, k: int, fl: Floats, sha: seq<Byte> -> string, render: Renderer, i: nat)
    requires Sound(fl) && ValidParts(base, fl) && Plannable(base, k, SpecWriter(fl), sha, render)
    requires PlannedFor(queries, Chunks(base.tagFilters, k), base, SpecWriter(fl), sha, render) && i < |queries|
    ensures DecodeSpec(queries[i].bytes, fl) == Ok(queries[i].spec)
    ensures queries[i].position == i
  {
    ChunkSpecValid(base, k, i, fl);
    SmallSpecFits(queries[i].spec, fl);
    SpecReadsBack(queries[i].spec, fl);
  }

  /** For sorted unique filters the duplicate check never fires. */
  lemma {:induction false} SortedFiltersNeverCollide(
    base: Spec, k: int, fl: Floats, sha: seq<Byte> -> string, render: Renderer)
    requires Sound(fl) && ValidParts(base, fl) && 1 <= k <= 20 && base.tagFilters != []
    requires Ascending(base.tagFilters, FilterLt) && (forall x, y :: sha(x) == sha(y) ==> x == y)
    requires |Chunks(base.tagFilters, k)| <= 100
    requires forall i :: 0 <= i < |Chunks(base.tagFilters, k)| ==>
      Buildable(SpecOf(base, Chunks(base.tagFilters, k)[i]), render)
    ensures Plannable(base, k, SpecWriter(fl), sha, render)
  {
    var chunks := Chunks(base.tagFilters, k);
    ChunksDiffer(base.tagFilters, k);
    forall i, j | 0 <= i < j < |chunks|
      ensures sha(SpecWriter(fl)(SpecOf(base, chunks[i]))) != sha(SpecWriter(fl)(SpecOf(base, chunks[j])))
    {
      ChunkSpecValid(base, k, i, fl);
      ChunkSpecValid(base, k, j, fl);
      SpecBytesIdentify(SpecOf(base, chunks[i]), SpecOf(base, chunks[j]), fl);
      assert SpecOf(base, chunks[i]).tagFilters != SpecOf(base, chunks[j]).tagFilters;
    }
  }
}
