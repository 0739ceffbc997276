# Verified model of the collection platform's core

A Dafny 4.11 model of the parts of the collection platform whose promises tests cannot settle,
with proofs of those promises for all inputs, all interleavings or all reachable states.

| component | modules |
|---|---|
| Sealed configuration bundles: the database triggers as interleaved transactions | `SealedBundles` |
| Canonical JSON and bundle identity | `Text`, `Utf8`, `Json`, `JsonGrammar`, `CanonicalJson`, `CanonicalBundles`, `CanonicalDocuments` |
| GeoJSON boundaries: decoding with a shared counter, writing, loading | `Floats`, `JsonLayout`, `GeographyBoundary`, `BoundaryRefusals`, `BoundaryEscapes` |
| Overpass planning: coordinates, specs, splitting, decoding | `CoordinateText`, `OverpassContracts`, `OverpassSpec`, `SpecDocuments`, `SpecEscapes`, `OverpassPlanning` |
| URL normalisation | `Pieces`, `UrlPaths`, `UrlQuery`, `Urls`, `UrlTexts` |
| Worker and heartbeat thread | `LeaseHeartbeat` |
| Lock-file dependency closure and policies | `DependencyClosure` |
| Bounded decompression | `BoundedDecompression` |
| HTTP manifests: ranking, planning, outcome shape | `ResourceRanking`, `HttpManifest` |
| Campaign compile and run bootstrap | `CampaignCompile`, `CampaignBootstrap` |
| Pipeline transition plans and their digest | `PipelineTransitions` |
| YAML rewrite | `YamlRewrite` |
| Run coverage | `RunCoverage` |

Code that works step by step is a method (or a class with methods) proved against a specification
function or relation; the lemmas are about that specification. `dafny verify dfyconfig.toml`
checks the whole project.

## Assumptions

Each is a parameter or a named predicate in the contracts that use it.

- PostgreSQL runs at READ COMMITTED, its default: the engine sets no isolation level
  (`apps/control_api/src/control_api/main.py`, lines 37-41). Freezing a sealed bundle rests on every
  trigger statement seeing a fresh snapshot. The advisory lock is a lock on the digest.
- SHA-256 is a function without collisions; so are the two name-based UUID namespaces of a run.
- Floats (`Floats.Sound`): printing a finite float gives a JSON number of at most 24 characters that
  reads back as the same float.
- The standard library behaves as in Python 3.13, the version the project requires. Text is a
  sequence of Unicode scalar values.
- Unicode tables (`Urls.Sane`): the IDNA codec turns the wide host of a network location that
  passed `urlsplit` into nonempty ASCII text without control characters or the delimiters that
  `urlsplit` checks for; lower-casing adds no ASCII
  character but letters.
- A decompressor honours its output cap and loses nothing (`BoundedDecompression.Honours`);
  `TerminatedDecoderHonours` shows the assumption can be met.

## Findings

Places where a promise fails, each with the exact condition under which it holds.

- A valid Overpass spec can be too large for its own reader (`OverpassSpec.OversizedSpec`);
  decoding returns the spec exactly when its document is within 4 MiB (`SpecReadsBack`), which every
  planned spec is (`SmallSpecFits`).
- URL normalisation is not idempotent for some non-ASCII hosts, such as one with U+2024
  (`Urls.UnsettledHost`); it is exactly when the ASCII host passes the codec's label rules, has no
  bracket and the result is within 4096 characters (`Urls.NormalIdempotent`). Under exactly the same
  condition the canonical origin survives normalisation (`Urls.NormalKeepsOrigin`).
- A path without a leading slash may need two normalisations (`UrlPaths.RelativePathUnstable`);
  the exact condition is `RelativePathStable`. URLs with a host never have such a path.
- A link such as `http://[`, or a redirect to it, makes manifest building raise a plain `ValueError`
  rather than its owner error (`HttpManifest.BracketLinkEscapes`, `BracketRedirectEscapes`);
  `ForeignFaults` with `CandidateRaises` says exactly when that happens, in terms of the parsed body,
  the joined links and the text of the URLs.
- The boundary decoder raises a plain `TypeError` for a list as the geometry type
  (`BoundaryEscapes.ListAsType`) and a plain `OverflowError` for a huge integer coordinate
  (`HugeCoordinate`); `BoundaryEscapes.DecodeEscapes` says exactly for which documents. The query-spec
  decoder lets exceptions of its constructors through in the same way, for instance for an empty polygon
  (`SpecEscapes.EmptyPolygon`, exactly `SpecEscapes.DecodeEscapes`).
- `canonical_documents` fills one dictionary, so a seed stored under the path of another document
  replaces it and the bundle digest no longer covers that document
  (`CanonicalDocuments.SeedReplacesCampaign`). The digest covers every document exactly when no two
  share a path (`DigestCovers`), and only a seed can share one (`OnlySeedsCollide`). The contract of a
  seed path admits such a path; whether one file can be read both as a seed and as that document is up to
  the seed formats, which are not part of this model.
- With several matching source artifacts the transition digest depends on the order of the inputs
  (`PipelineTransitions.SwappedSources`); `DigestUnderPermutation` is the exact condition.
- The YAML rewrite settles a readiness with empty blockers without counting a change, so a file with
  only that change is not written (`YamlRewrite.SilentReadiness`, `UncountedChange`).

## Model

| member | source | states |
|---|---|---|
| `SealedBundles.StepKeeps` | database/migrations/versions/20260804_0001_config_bundles.py:126-276 | every statement of every transaction (lock, guarded child insert, both validation queries, bundle insert, commit, abort, rejected mutation) keeps the invariant that committed children belong to their sealing transaction and sealed rows passed validation |
| `SealedBundles.RunKeeps` | database/migrations/versions/20260804_0001_config_bundles.py:126-276 | the invariant holds after every interleaving of transactions |
| `SealedBundles.SealedByOneWriter` | database/migrations/versions/20260804_0001_config_bundles.py:126-132 | in every reachable state each committed child has a committed bundle and was written by the transaction that sealed it |
| `SealedBundles.SealedBundlesAreNumbered` | database/migrations/versions/20260804_0001_config_bundles.py:246-276 | in every reachable state a sealed bundle's component positions are exactly 0..n-1 with n at least 1, its blocker positions exactly 0..m-1, and it is ready exactly when m is 0 |
| `SealedBundles.CountMinMaxNumbers` | database/migrations/versions/20260804_0001_config_bundles.py:246-257 | pigeonhole: unique positions with the trigger's count, minimum and maximum are exactly 0..n-1 |
| `SealedBundles.SealableIsNumbered` | database/migrations/versions/20260804_0001_config_bundles.py:133-137 | rows of one digest that the unique keys admit pass the trigger's checks exactly when there is a component, the positions of components and of blockers are 0, 1, 2 and so on, and the bundle is ready exactly when it has no blocker |
| `SealedBundles.StepFreezes` | database/migrations/versions/20260804_0001_config_bundles.py:191-229 | no single statement adds, changes or removes a row of a sealed bundle |
| `SealedBundles.SealedForever` | database/migrations/versions/20260815_0011_owned_artifacts.py:102-129 | whatever runs afterwards, a sealed bundle and its components, blockers and artifact rows stay the same |
| `SealedBundles.PublishingSeals` | packages/collection_infrastructure/src/collection_infrastructure/postgres/campaign_snapshot_store.py:68-130 | publishing an unsealed digest undisturbed, from any reachable state, commits the bundle with exactly the given children under the publishing transaction when they are complete, and otherwise leaves the tables as they were |
| `SealedBundles.PublisherSealsItsOwn` | packages/collection_infrastructure/src/collection_infrastructure/postgres/campaign_snapshot_store.py:68-130 | in every interleaving in which a session issues the publishing statements, waiting where it must, it seals no bundle but its own, and that with exactly its children |
| `SealedBundles.KeysAreUnique` | database/migrations/versions/20260804_0001_config_bundles.py:126-187 | in every interleaving no two components of a bundle share a position or a path, no two blockers a position, no two artifact rows a bundle or an artifact; only open transactions hold locks |
| `SealedBundles.MutatorLeavesNothing` | database/migrations/versions/20260804_0001_config_bundles.py:191-229 | a transaction that updates or deletes a row leaves nothing behind, whatever runs before, inside or after it |
| `SealedBundles.Serve` | database/migrations/versions/20260804_0001_config_bundles.py:126-276 | any schedule of statements executed on the shared tables is a run of the protocol: sealed bundles have one writer, are numbered, and are as they were when sealed |
| `SealedBundles.ConfigDatabase.Execute` | database/migrations/versions/20260804_0001_config_bundles.py:191-276 | one statement of one session on the shared tables is one step of the protocol |
| `SealedBundles.ConfigDatabase.GuardUnsealedChildInsert` | database/migrations/versions/20260804_0001_config_bundles.py:207-229 | the child guard on the shared tables: its new state is the protocol step, and it allows the row only when no bundle row is visible |
| `SealedBundles.ConfigDatabase.Aggregate` | database/migrations/versions/20260804_0001_config_bundles.py:246-252 | the aggregate query's loop returns the number of rows and the least and greatest position |
| `SealedBundles.ConfigDatabase.ValidateComponents` | database/migrations/versions/20260804_0001_config_bundles.py:231-257 | the component check of the sealing trigger is the protocol step |
| `SealedBundles.ConfigDatabase.ValidateBlockers` | database/migrations/versions/20260804_0001_config_bundles.py:259-276 | the blocker and readiness check of the sealing trigger is the protocol step |
| `SealedBundles.ConfigDatabase.CommitTransaction` | database/migrations/versions/20260804_0001_config_bundles.py:126-132 | commit checks the deferred foreign keys and publishes all rows or none |
| `Json.LoadsRender` | packages/collection_application/src/collection_application/canonicalization.py:65-72 | parsing a rendered JSON value gives that value back, for every value with unique keys and printable number tokens |
| `Json.RenderInjective` | packages/collection_application/src/collection_application/canonicalization.py:65-72 | different values render differently |
| `JsonGrammar.LoadsExactly` | packages/collection_application/src/collection_application/geography.py:150-166 | parsing accepts exactly the texts of the JSON grammar, any white space, escape and number form included, and answers the value they stand for, objects with a repeated name excepted |
| `JsonGrammar.DumpsIsCanonical` | packages/collection_application/src/collection_application/canonicalization.py:65-72 | a printed value is the same data with the members of every object in ascending order, without white space, each number and character at its shortest |
| `CanonicalJson.CanonicalBytesIdentify` | packages/collection_application/src/collection_application/canonicalization.py:65-72 | sorted-key bytes are equal exactly when the values are the same data, whatever order their dictionaries were filled in |
| `CanonicalJson.CanonicalBytesDecode` | packages/collection_application/src/collection_application/canonicalization.py:65-72 | decoding the canonical bytes gives the same data, and re-encoding it the same bytes |
| `CanonicalBundles.BundleBytesIdentify` | packages/collection_application/src/collection_application/canonicalization.py:40-72 | two bundles have the same canonical bytes exactly when campaign key and path-to-content map are equal |
| `CanonicalBundles.BundleDigestIdentifies` | packages/collection_application/src/collection_application/canonicalization.py:75-81 | with a collision-free SHA-256 the bundle digest identifies campaign key and content |
| `CanonicalBundles.BundleSays` | packages/collection_application/src/collection_application/canonicalization.py:40-81 | what is hashed binds the campaign key and, in ascending order of the paths, every document once with its path, the digest of its own canonical text and its content |
| `CanonicalDocuments.CanonicalDocuments` | packages/collection_application/src/collection_application/canonicalization.py:19-37 | the assignments in their order leave the dictionary of all documents; when no seed takes another document's path it holds under each fixed name, policy path, artifact path and seed path exactly that document |
| `CanonicalDocuments.DigestCovers` | packages/collection_application/src/collection_application/canonicalization.py:75-81 | the bundle digest changes with the content of every loaded document exactly when no two documents share a path |
| `CanonicalDocuments.DigestIdentifiesDocuments` | packages/collection_application/src/collection_application/canonicalization.py:75-81 | campaigns without shared paths have the same digest exactly when they have the same key and campaign, entity kinds, taxonomy, attributes, source bindings, geography with its artifacts, policies and seeds are each the same data |
| `CanonicalDocuments.OnlySeedsCollide` | packages/collection_application/src/collection_application/canonicalization.py:19-37 | under the path contracts, paths are distinct exactly when no seed has the path of another document |
| `CanonicalDocuments.SeedReplacesCampaign` | packages/collection_application/src/collection_application/canonicalization.py:35-37 | a seed stored as campaign.yaml replaces the campaign, and the digest no longer covers it |
| `Utf8.RoundTrip` | packages/collection_application/src/collection_application/canonicalization.py:65-72 | UTF-8 decoding, strict or replacing, undoes encoding for every text |
| `Utf8.DecodeExactly` | packages/collection_application/src/collection_application/geography.py:142-149 | the strict decoder accepts exactly the encodings of texts: no overlong form, surrogate, truncated or stray byte |
| `Utf8.RefusedNoFurther` | connectors/official_http/src/official_http/urls.py:43-50 | no encoding begins with more of the bytes than the replacing decoder skips at once |
| `Utf8.RefusedIsPrefix` | connectors/official_http/src/official_http/urls.py:43-50 | what it skips at once is one byte or the beginning of an encoding, the maximal subpart |
| `GeographyBoundary.Decode` | packages/collection_application/src/collection_application/geography.py:134-210 | the decoder with its shared position counter computes the counted specification, errors included |
| `GeographyBoundary.RingOf` | packages/collection_application/src/collection_application/geography.py:213-258 | reading a ring advances the shared counter by the positions read and yields the specified ring or error |
| `GeographyBoundary.PolygonOf` | packages/collection_application/src/collection_application/geography.py:213-258 | reading a polygon's rings threads the counter through all of them |
| `GeographyBoundary.PositionOf` | packages/collection_application/src/collection_application/geography.py:261-309 | reading a position bumps the counter, enforces 100000 positions and the coordinate bounds, and drops negative zero |
| `GeographyBoundary.AcceptedGeometry` | packages/collection_application/src/collection_application/geography.py:134-258 | an accepted boundary is a geometry of closed rings with at least three distinct vertices, in range, nested as the coordinates of the document and having position by position the value of the number there; its positions were counted exactly |
| `GeographyBoundary.DescribedIsAccepted` | packages/collection_application/src/collection_application/geography.py:134-309 | every document that describes a valid geometry, in whatever layout and with integer or decimal coordinates, is accepted as that geometry |
| `BoundaryRefusals.BodyRefusals` | packages/collection_application/src/collection_application/geography.py:134-180 | size, encoding, syntax, duplicate names, non-finite constants, shape, fields and type are refused in this order, each by its own error |
| `BoundaryRefusals.DecodeRefuses` | packages/collection_application/src/collection_application/geography.py:180-309 | a document that passes these is refused exactly for the first thing wrong with its coordinates, polygon by polygon, ring by ring, position by position |
| `GeographyBoundary.GeometryFits` | packages/collection_application/src/collection_application/geography.py:134-210 | any geometry of at most 100000 positions prints within 16 MiB |
| `GeographyBoundary.CanonicalDecodes` | packages/collection_application/src/collection_application/geography.py:134-210 | the canonical text of any valid geometry decodes to that geometry with its exact position count |
| `GeographyBoundary.RedecodingIsStable` | packages/collection_application/src/collection_application/geography.py:134-309 | re-decoding the canonical form of any accepted boundary succeeds with the same bytes, digest, type and count |
| `GeographyBoundary.LoaderAcceptsExactly` | packages/collection_application/src/collection_application/campaign_documents.py:242-272 | the loader accepts a file exactly when it is the canonical form of some accepted boundary declared with its own digest |
| `GeographyBoundary.LoaderRefuses` | packages/collection_application/src/collection_application/campaign_documents.py:242-272 | otherwise it reports the decoder's error, the form that is not canonical, or the digest that is not that of the bytes |
| `BoundaryEscapes.DecodeEscapes` | packages/collection_application/src/collection_application/geography.py:134-309 | decoding raises something other than its own error exactly when the text and fields pass and the type is a list or object, or an overflowing integer is the first fault of the coordinates |
| `BoundaryEscapes.ListAsType` | packages/collection_application/src/collection_application/geography.py:134-210 | a boundary whose type is an empty list raises a TypeError |
| `BoundaryEscapes.HugeCoordinate` | packages/collection_application/src/collection_application/geography.py:261-309 | a coordinate too big for a float raises an OverflowError |
| `GeographyBoundary.LoaderAcceptsWriter` | tools/live_collection/berlin_boundary.py:572-586 | the loader accepts every boundary the writer emits, with the same bytes |
| `CoordinateText.CoordinateReadsBack` | connectors/osm_overpass/src/osm_overpass/query.py:39-41 | the printed coordinate denotes exactly the value scaled to seven decimals |
| `CoordinateText.StripKeepsInteger` | connectors/osm_overpass/src/osm_overpass/query.py:39-41 | stripping removes trailing decimals and a bare point only; sign and integer part survive |
| `CoordinateText.CoordinateIdentifies` | connectors/osm_overpass/src/osm_overpass/query.py:39-41 | two coordinates print alike exactly when their scaled values are equal |
| `CoordinateText.NegativeZero` | connectors/osm_overpass/src/osm_overpass/query.py:39-41 | zero prints as "0" whatever its sign |
| `CoordinateText.CoordinateIsNearest` | connectors/osm_overpass/src/osm_overpass/query.py:39-41 | the printed coordinate of any finite float is the multiple of a ten-millionth nearest to its exact value, ties to even |
| `CoordinateText.CoordinateMonotone` | connectors/osm_overpass/src/osm_overpass/query.py:39-41 | a float that is not smaller never prints as a smaller coordinate |
| `CoordinateText.FloatsPrintAlike` | connectors/osm_overpass/src/osm_overpass/query.py:39-41 | two floats print alike exactly when they round to the same number of ten-millionths |
| `OverpassSpec.Decode` | connectors/osm_overpass/src/osm_overpass/input.py:29-138 | the field-by-field decoder with its loops computes the specified result or error |
| `OverpassSpec.CollectItems` | connectors/osm_overpass/src/osm_overpass/input.py:69-118 | an appending loop over a JSON list returns all items or the first error |
| `SpecDocuments.DecodeSays` | connectors/osm_overpass/src/osm_overpass/input.py:29-138 | of all bodies the decoder accepts exactly those whose document says, field by field and number by number, a specification that the contracts allow, and it answers that specification |
| `OverpassSpec.SpecReadsBack` | connectors/osm_overpass/src/osm_overpass/input.py:29-138 | decoding the document written for a valid spec returns the spec exactly when the document is within 4 MiB, and reports its size otherwise |
| `OverpassSpec.SpecBytesIdentify` | connectors/osm_overpass/src/osm_overpass/planning.py:114-134 | valid specs are written alike exactly when they are equal |
| `OverpassSpec.SmallSpecFits` | connectors/osm_overpass/src/osm_overpass/planning.py:76-111 | every valid spec of at most twenty filters, as planned, is within the reader's limit |
| `SpecEscapes.BodyRefusals` | connectors/osm_overpass/src/osm_overpass/input.py:29-68 | size, encoding, syntax, duplicate names, non-finite constants, shape, fields and revision are refused in this order, each by its own error |
| `SpecEscapes.MembersFail` | connectors/osm_overpass/src/osm_overpass/input.py:69-176 | the fields are refused exactly for the first thing wrong with them: polygon, element types and filters item by item, then the constructors |
| `SpecEscapes.DecodeEscapes` | connectors/osm_overpass/src/osm_overpass/input.py:29-176 | decoding raises something other than its own error exactly when text, fields and revision pass and the first fault after that is an overflowing number, an unhashable element type or a constructor's refusal |
| `SpecEscapes.EmptyPolygon` | connectors/osm_overpass/src/osm_overpass/input.py:29-176 | a document without points passes the decoder's own checks and makes the polygon constructor raise |
| `OverpassSpec.OversizedSpec` | connectors/osm_overpass/src/osm_overpass/contracts.py:61-81 | on every valid polygon there is a valid spec whose document the reader refuses |
| `OverpassPlanning.BuildQuery` | connectors/osm_overpass/src/osm_overpass/query.py:11-32 | the nested loops hand the renderer the selectors of every type and filter with the timeout, and the text is refused exactly when it exceeds 256 KiB |
| `OverpassPlanning.SelectorAt` | connectors/osm_overpass/src/osm_overpass/query.py:16-28 | the selectors run through the filters once for each element type, in order |
| `OverpassPlanning.PlanChunks` | connectors/osm_overpass/src/osm_overpass/planning.py:89-108 | the loop over the chunks yields one numbered query per chunk with the chunk's filters, every other argument of the plan, and the digests of its own document and text, or the error of the first chunk that makes none |
| `OverpassPlanning.Plan` | connectors/osm_overpass/src/osm_overpass/planning.py:76-111 | planning succeeds exactly when chunk size, chunk count, every chunk's query and digest uniqueness allow, and returns one numbered query per chunk; otherwise the error names the check that failed |
| `OverpassPlanning.ChunksPartition` | connectors/osm_overpass/src/osm_overpass/planning.py:89-98 | chunks concatenate to the filters; none is empty or over the size limit |
| `OverpassPlanning.ChunkAt` | connectors/osm_overpass/src/osm_overpass/planning.py:89-90 | chunk i is the slice of filters from i times the chunk size on, and only the last is shorter |
| `OverpassPlanning.ChunksDiffer` | connectors/osm_overpass/src/osm_overpass/planning.py:41-49 | strictly sorted filters give pairwise different chunks |
| `OverpassPlanning.QuerySelects` | connectors/osm_overpass/src/osm_overpass/query.py:16-28 | a query selects an element exactly when its type is listed, it matches a filter and lies in the polygon |
| `OverpassPlanning.PlanSelects` | connectors/osm_overpass/src/osm_overpass/planning.py:76-111 | some planned query selects an element exactly when the unsplit query would |
| `OverpassPlanning.PlannedQueriesDecode` | connectors/osm_overpass/src/osm_overpass/input.py:29-138 | every planned document decodes to the spec that was planned, at its own position |
| `OverpassPlanning.SortedFiltersNeverCollide` | connectors/osm_overpass/src/osm_overpass/planning.py:41-49 | for sorted unique filters the duplicate-spec check never fires |
| `UrlPaths.NormalizePath` | connectors/official_http/src/official_http/urls.py:125-136 | the reassigning code, with `normpath`'s loop inside, computes the specified normal path, also for relative and empty paths |
| `UrlPaths.NormalPathLeadsToTheSamePlace` | connectors/official_http/src/official_http/urls.py:125-136 | walking the segments of the normal form from the root ends where the original path ends |
| `UrlPaths.NormalPathSegments` | connectors/official_http/src/official_http/urls.py:125-136 | the normal form of an absolute path has one or two empty segments in front, then only names, and a last empty one exactly when the path ended in a slash |
| `UrlPaths.NormalPathIdempotent` | connectors/official_http/src/official_http/urls.py:125-136 | for every absolute or empty path, normalising twice is normalising once |
| `UrlPaths.RelativePathStable` | connectors/official_http/src/official_http/urls.py:125-136 | a path without a root is stable after one normalisation exactly when it leads down into a name |
| `UrlPaths.RelativePathUnstable` | connectors/official_http/src/official_http/urls.py:125-136 | "a/.." becomes "/." and only then "/" |
| `UrlQuery.UnquoteQuoted` | connectors/official_http/src/official_http/urls.py:43-50 | percent-decoding undoes percent-encoding for every text |
| `UrlQuery.ParseEncoded` | connectors/official_http/src/official_http/urls.py:43-50 | parsing an encoded pair list gives the list back |
| `UrlQuery.ParseWritten` | connectors/official_http/src/official_http/urls.py:43-50 | parameters joined by ampersands are read one for one, name and value unquoted, a missing value as an empty one |
| `UrlQuery.UnquoteReads` | connectors/official_http/src/official_http/urls.py:43-50 | a percent escape in either case is its byte, and a percent sign without two digits stays |
| `UrlQuery.QuoteWrites` | connectors/official_http/src/official_http/urls.py:43-50 | letters, digits and four marks are written as they are, a space as a plus sign, every other byte as an escape in capital digits |
| `UrlQuery.NormalQueryMeaning` | connectors/official_http/src/official_http/urls.py:43-50 | the normal query holds exactly the original pairs that are not tracking parameters, in sorted order |
| `UrlQuery.NormalQueryIdempotent` | connectors/official_http/src/official_http/urls.py:43-50 | normalising a query twice is normalising it once |
| `Urls.NormalizeHttpUrl` | connectors/official_http/src/official_http/urls.py:15-50 | the method with its early errors computes the specified normal form or error; of the parameters of the original the normal form has exactly those as often whose name, case-folded, is no tracking parameter's, and none of the others |
| `Urls.NormalizeNetloc` | connectors/official_http/src/official_http/urls.py:19-42 | scheme, user information, host and port checks in their order, and the network location they leave |
| `UrlTexts.InvalidUrls` | connectors/official_http/src/official_http/urls.py:15-17 | a URL is refused as invalid exactly when it is empty, longer than 4096 characters or holds a control character |
| `UrlTexts.SplitWritten` | connectors/official_http/src/official_http/urls.py:18-20 | splitting a URL written out, with blanks, a scheme in any case, network location, path, query and fragment, finds these pieces |
| `UrlTexts.AuthorityVerdict` | connectors/official_http/src/official_http/urls.py:19-42 | of an ASCII network location: the error of scheme, user information, host and port in this order, or scheme, lower-case host and port, the scheme's own when none is written |
| `UrlTexts.WideVerdict` | connectors/official_http/src/official_http/urls.py:29-42 | of a non-ASCII host: it is lower-cased and encoded, refused when it has no ASCII form, and that form in lower case is the host |
| `UrlTexts.WrittenNormal` | connectors/official_http/src/official_http/urls.py:15-50 | every URL written out with an ASCII host name and a port in range has the normal form that shows the scheme and host in lower case, the port unless it is 80 for http or 443 for https, the normal path and the normal query |
| `Urls.SplitUnsplit` | connectors/official_http/src/official_http/urls.py:15-50 | splitting undoes unsplitting, unless the network location carries a bracket, and then fails as that bracket demands |
| `Urls.NormalIdempotent` | connectors/official_http/src/official_http/urls.py:15-50 | a normal form is its own normal form exactly when it is within 4096 characters and its ASCII host is one the IDNA codec accepts again |
| `Urls.NormalIdempotentForAsciiHosts` | connectors/official_http/src/official_http/urls.py:15-50 | with a host that is ASCII after lower-casing (a name or IPv4 address) normalisation is idempotent up to the length limit |
| `Urls.UnsettledHost` | connectors/official_http/src/official_http/urls.py:31-34 | a host with U+2024 normalises to "a..b", which is refused the second time and has no canonical origin |
| `Urls.NormalMeansTheSame` | connectors/official_http/src/official_http/urls.py:15-50 | a normal form that can be split leads to the same place with the same kept pairs; it names the same scheme, host and effective port exactly when its host is settled |
| `Urls.CanonicalOriginIdentifies` | connectors/official_http/src/official_http/urls.py:53-56 | two URLs have the same canonical origin exactly when scheme, host and effective port agree |
| `Urls.NormalKeepsOrigin` | connectors/official_http/src/official_http/urls.py:53-56 | the canonical origin survives normalisation exactly when the normal form is within 4096 characters and its host is settled, whatever parameters are dropped |
| `LeaseHeartbeat.RunKeeps` | apps/manual_import_worker/src/manual_import_worker/worker.py:54-97 | an invariant over lease, stop flag, failure flag, thread and gateway log holds after every interleaving of worker and heartbeat steps |
| `LeaseHeartbeat.ReportsAreSafe` | apps/manual_import_worker/src/manual_import_worker/worker.py:54-97 | whenever complete or fail is about to be called the thread has ended or never ran, the lease is the latest granted, and for complete no renewal has failed |
| `LeaseHeartbeat.GatewaySeesSafeReports` | apps/manual_import_worker/src/manual_import_worker/worker.py:151-208 | over the calls the gateway sees: reports carry the latest lease, completion excludes any failed renewal in the whole run, and only one failure report with the same lease may follow a completion call that raised |
| `LeaseHeartbeat.StopEndsThread` | apps/manual_import_worker/src/manual_import_worker/worker.py:196-208 | once the stop event is set the thread ends within six of its own steps whatever the gateway answers |
| `LeaseHeartbeat.CompletionReachable` | apps/manual_import_worker/src/manual_import_worker/worker.py:65-97 | from any point of any run, completion can still be reported exactly when no renewal has failed and the exception handler has not been entered |
| `LeaseHeartbeat.RenewalReachable` | apps/manual_import_worker/src/manual_import_worker/worker.py:196-208 | from any point of any run, the lease can still be renewed exactly while the thread is yet to be launched, or in its loop and not stopped, or on its way to the gateway |
| `LeaseHeartbeat.FailureReachable` | apps/manual_import_worker/src/manual_import_worker/worker.py:87-97 | from any point of any run, a failure can still be reported exactly when the run is not over and, once in the handler, the thread was launched or never created |
| `LeaseHeartbeat.RaisedIsReported` | apps/manual_import_worker/src/manual_import_worker/worker.py:65-97 | after creating or launching the thread, the work or the check raised, completion is never reported, and a failure still can be unless the thread could not be launched |
| `LeaseHeartbeat.FinishedHasReported` | apps/manual_import_worker/src/manual_import_worker/worker.py:54-97 | a run that acquired a lease ends with the stop event set, and with a report unless the thread could not be joined inside the handler |
| `LeaseHeartbeat.Interleave` | apps/manual_import_worker/src/manual_import_worker/worker.py:54-208 | any schedule of the two threads over the shared object is a run of the state machine and keeps its promises |
| `LeaseHeartbeat.Process.Advance` | apps/manual_import_worker/src/manual_import_worker/worker.py:54-97 | one step of the worker's code on the shared fields |
| `LeaseHeartbeat.Process.FinishUp` | apps/manual_import_worker/src/manual_import_worker/worker.py:185-194 | one step of `stop` and of the report that follows it |
| `LeaseHeartbeat.Process.Beat` | apps/manual_import_worker/src/manual_import_worker/worker.py:196-208 | one step of the heartbeat thread on the shared fields |
| `DependencyClosure.Closure` | tools/architecture_checks/check_dependencies.py:697-709 | the stack loop ends on every graph and returns exactly the names reachable by dependency paths from the root |
| `DependencyClosure.BuildGraph` | tools/architecture_checks/check_dependencies.py:633-660 | the reading loop builds the specified graph and violations |
| `DependencyClosure.CleanLock` | tools/architecture_checks/check_dependencies.py:633-660 | reading reports nothing exactly when every entry is well formed and no two name the same distribution, and the graph then holds each entry's dependencies and nothing else |
| `DependencyClosure.LockSays` | tools/architecture_checks/check_dependencies.py:633-660 | of any lock file: an entry counts when it is well formed and no entry that counts has its name before it; the graph holds the entries that count, and every other one gets its violation, in order |
| `DependencyClosure.CheckPolicy` | tools/architecture_checks/check_dependencies.py:662-694 | a policy yields nothing exactly when its root is absent or required names are reachable and forbidden ones are not; otherwise it lists exactly the missing and exactly the forbidden names, sorted |
| `DependencyClosure.Violations` | tools/architecture_checks/check_dependencies.py:616-694 | nothing is reported exactly when the lock file is clean and every policy holds; in general the list is what is said of each entry and then of each policy, in order |
| `BoundedDecompression.Decompress` | connectors/official_http/src/official_http/scrapy_child.py:246-285 | for any decoder honouring an output cap the loop ends, every cap asked for is between 1 and the limit plus 1, a body is returned exactly when the input is a complete stream within the limit and is then that stream, and a larger stream is refused as too large |
| `BoundedDecompression.CodingIsFirstName` | connectors/official_http/src/official_http/scrapy_child.py:210-212 | white space around the first coding of the header, its case and further codings do not matter |
| `BoundedDecompression.DecodeBody` | connectors/official_http/src/official_http/scrapy_child.py:210-243 | the first coding of the header, trimmed and case-folded, selects identity, gzip or deflate with that verdict; other codings are refused |
| `BoundedDecompression.NoCoding` | connectors/official_http/src/official_http/scrapy_child.py:210-212 | no header, or an empty one, names the identity |
| `BoundedDecompression.TerminatedDecoderHonours` | connectors/official_http/src/official_http/scrapy_child.py:254-268 | decoders as assumed exist, trailing bytes included |
| `ResourceRanking.InterestIsBest` | connectors/official_http/src/official_http/planning.py:128-138 | the interest score is zero exactly when no rule matches, else the highest matching priority with the least key |
| `ResourceRanking.HitsMentions` | connectors/official_http/src/official_http/planning.py:128-134 | a rule matches exactly when one of its tokens stands somewhere in the text |
| `ResourceRanking.Rank` | connectors/official_http/src/official_http/planning.py:104-125 | ranked resources are sorted by score and URL, unique by URL, and a true top-k of the wanted links |
| `ResourceRanking.SortedSetFacts` | connectors/official_http/src/official_http/planning.py:47-50 | `sorted(set(x))` is strictly increasing with the same elements, and leaves exactly the strictly increasing lists alone |
| `HttpManifest.CandidatesFacts` | connectors/official_http/src/official_http/planning.py:141-151 | collecting candidates stops with the fault of the first link that raises, and otherwise yields exactly the normal forms that have the allowed origin |
| `HttpManifest.Plan` | connectors/official_http/src/official_http/planning.py:32-101 | planning a body yields the promised resources in rank order within their field limits, the robots verdict and crawl delay or the canonical link, or the fault of the table |
| `HttpManifest.PlannedResources` | connectors/official_http/src/official_http/planning.py:32-125 | every resource found is the normal form of a link inside the allowed origin, a sitemap or a page as the request and the sitemap index say, scored by its best interest |
| `HttpManifest.PlanningFaults` | connectors/official_http/src/official_http/planning.py:32-151 | planning fails exactly with the fault of the parser, of the first link that raises, or of a page's canonical link |
| `HttpManifest.StatusTable` | apps/http_worker/src/http_worker/worker.py:224-308 | the verdict on every status: planning for 2xx, the prior artifact for 304, the location for other 3xx, nothing for 404 and 410, and the refusals of 403, 429, 5xx and the rest |
| `HttpManifest.RedirectVerdict` | apps/http_worker/src/http_worker/worker.py:260-278 | a redirect is followed exactly when its target has a normal form inside the allowed origin, and is otherwise refused with the fault of the step that failed |
| `HttpManifest.BuildManifest` | apps/http_worker/src/http_worker/worker.py:201-328 | building raises exactly the fault of its status table or yields a manifest that passes the outcome-shape checks, repeats request and response, has a raw body exactly when there is a raw digest, and names the redirect's normal target |
| `HttpManifest.ShapeSays` | connectors/official_http/src/official_http/contracts.py:167-259 | a manifest is accepted exactly when status, headers and resources are in range and order and the outcome has its statuses and exactly its artifact fields |
| `HttpManifest.RankedKeys` | connectors/official_http/src/official_http/contracts.py:203-205 | rank order is the order the manifest contract checks |
| `HttpManifest.CandidateRaises` | connectors/official_http/src/official_http/planning.py:141-151 | a link, or a redirect target, raises something other than the owner error exactly when `urlsplit` raises on its text, or its ASCII host keeps one bracket and its normal form is within 4096 characters |
| `HttpManifest.ForeignFaults` | apps/http_worker/src/http_worker/worker.py:224-278 | building a manifest raises something other than its owner error exactly when the parser or the first raising link of a successful response does, or following the location of a redirect does |
| `HttpManifest.WebOfLawful` | connectors/official_http/src/official_http/urls.py:53-56 | the URL functions meet the assumption the manifest results make of them |
| `HttpManifest.BracketLinkEscapes` | connectors/official_http/src/official_http/planning.py:141-151 | a link "http://[" makes planning raise a plain ValueError instead of being skipped |
| `HttpManifest.BracketRedirectEscapes` | apps/http_worker/src/http_worker/worker.py:260-278 | so does a redirect to it, whether urljoin raises already or passes the target on |
| `CampaignCompile.LoadSeedRows` | packages/collection_application/src/collection_application/manual_seed.py:22-113 | seed rows load exactly when every manual binding has a file seed, a manual policy that accepts its format, the file, and a readable content; otherwise the error is that of the first binding that has not |
| `CampaignCompile.SeedVerdict` | packages/collection_application/src/collection_application/manual_seed.py:22-113 | the rows of a binding are what its file holds in its format within the size limit; otherwise the error names the first thing missing |
| `CampaignCompile.LastSeed` | packages/collection_application/src/collection_application/manual_seed.py:22-113 | a path has the rows of the last manual binding that reads it |
| `CampaignCompile.AppendMissing` | packages/collection_application/src/collection_application/campaign_validation.py:134-142 | exactly the values that are not owned are added, under the reference |
| `CampaignCompile.ValidateReferences` | packages/collection_application/src/collection_application/campaign_validation.py:9-131 | the list holds every violated reference there is and nothing else, and is empty exactly when every reference holds |
| `CampaignCompile.Compile` | packages/collection_application/src/collection_application/campaign_snapshot_service.py:27-41 | a bundle passes both checks exactly when it compiles; otherwise it is refused for its first unreadable seed or with all its violated references |
| `CampaignBootstrap.Create` | packages/collection_application/src/collection_application/campaign_runs.py:105-185 | the loop over the bindings returns the specified source rows, stage rows and work, or the first error |
| `CampaignBootstrap.WorkFails` | packages/collection_application/src/collection_application/campaign_runs.py:122-170 | a binding gets work or the error of the first check it fails: policy, capability, seed provider, seed file, access, format, publication |
| `CampaignBootstrap.WorksExactly` | packages/collection_application/src/collection_application/campaign_runs.py:119-155 | either every binding has its work, in order, or the error is that of the first one without |
| `CampaignBootstrap.CompiledBinding` | packages/collection_application/src/collection_application/campaign_runs.py:122-155 | for an enabled manual binding of a compiled bundle the policy, seed-file and content-type lookups succeed and the owner contract holds |
| `CampaignBootstrap.CompiledRunsStart` | packages/collection_application/src/collection_application/campaign_runs.py:119-225 | a ready compiled bundle with only manual imports enabled gives, unless publishing fails, in document order one active source row per enabled binding and exactly one work unit with the binding's own fields, with pairwise different payloads, semantic keys and identifiers, and the eight stages of which only discovery runs |
| `CampaignBootstrap.IdentitiesDiffer` | packages/collection_application/src/collection_application/campaign_runs.py:212-225 | identity payloads of different bindings are different data and hash to different semantic keys |
| `CampaignBootstrap.SemanticKeyIdentifies` | packages/collection_application/src/collection_application/campaign_runs.py:212-225 | two payloads have the same semantic key exactly when run, binding, policy digest, source digest, format, mode and extraction profile agree |
| `PipelineTransitions.PlanOf` | packages/collection_application/src/collection_application/pipeline_advancement.py:281-431 | a plan applies exactly for a discovery manual-import plan with its output role and one matching source artifact, has a blocker exactly when it does not apply, and carries the digest of its canonical payload |
| `PipelineTransitions.OwnerDecides` | packages/collection_application/src/collection_application/pipeline_advancement.py:281-308 | the transition is named after the owner of stage, capability and output contract |
| `PipelineTransitions.Refusals` | packages/collection_application/src/collection_application/pipeline_advancement.py:295-385 | an unowned output, an output role that is not the contract's, and a record without a downstream source are blocked with their codes and contexts |
| `PipelineTransitions.SourceRefusals` | packages/collection_application/src/collection_application/pipeline_advancement.py:324-356 | an import plan is blocked for having no source artifact, or more than one, and then lists them |
| `PipelineTransitions.SourceRoles` | packages/collection_application/src/collection_application/pipeline_advancement.py:20-23 | the source roles are the twelve of two prefixes, three formats and two modes |
| `PipelineTransitions.DigestIdentifies` | packages/collection_application/src/collection_application/pipeline_advancement.py:482-531 | two works have the same plan digest exactly when they agree on everything but the order of their inputs, and on the order of the conflicting ones |
| `PipelineTransitions.PayloadBinds` | packages/collection_application/src/collection_application/pipeline_advancement.py:490-505 | the hashed document binds every field of the work under its name |
| `PipelineTransitions.PlanUnderPermutation` | packages/collection_application/src/collection_application/pipeline_advancement.py:482-550 | with at most one matching source the whole plan is unchanged by any reordering of the inputs |
| `PipelineTransitions.DigestUnderPermutation` | packages/collection_application/src/collection_application/pipeline_advancement.py:482-550 | a reordering keeps the digest exactly when the work is not in conflict or the matching inputs keep their order |
| `PipelineTransitions.SwappedSources` | packages/collection_application/src/collection_application/pipeline_advancement.py:341-352 | with two matching sources, swapping them changes the digest |
| `PipelineTransitions.BootstrappedWorkApplies` | packages/collection_application/src/collection_application/pipeline_advancement.py:20-23 | the source artifact a campaign run binds has a role the registry recognises, so its plan is applied |
| `YamlRewrite.Update` | tools/live_collection/berlin_boundary.py:439-479 | the recursive loops compute the specified tree and change count |
| `YamlRewrite.RewriteBecomes` | tools/live_collection/berlin_boundary.py:439-479 | the tree is the original without the items that report the missing boundary, with the digest under keys of boundary and digest, the path in place of texts under keys of boundary and path, artifact, reference or file, and every readiness without blockers made ready |
| `YamlRewrite.ChangesCountSites` | tools/live_collection/berlin_boundary.py:439-479 | the change count is the number of places replaced or removed |
| `YamlRewrite.RewriteIdempotent` | tools/live_collection/berlin_boundary.py:439-479 | rewriting twice is rewriting once, and a tree is left alone exactly when it is normal |
| `YamlRewrite.NothingLeftBehind` | tools/live_collection/berlin_boundary.py:439-479 | nowhere in the result does a list hold the missing-boundary blocker or a mapping a readiness with empty blockers |
| `YamlRewrite.ReadinessSettles` | tools/live_collection/berlin_boundary.py:471-478 | a readiness whose blockers are then empty becomes ready and loses its blockers field, all other fields unchanged |
| `YamlRewrite.UncountedChange` | tools/live_collection/berlin_boundary.py:488-502 | with no change counted, so nothing written, the rewrite would still change the tree exactly when some readiness has empty blockers |
| `YamlRewrite.SilentReadiness` | tools/live_collection/berlin_boundary.py:471-478 | a file with only an empty-blockers readiness is changed without being counted |
| `RunCoverage.CoverStage` | packages/collection_application/src/collection_application/run_control.py:328-344 | a stage's eight counts are the recorded ones, its total is their sum, and its terminal count is what is recorded in the terminal states |
| `RunCoverage.AcceptedIsCounted` | packages/collection_application/src/collection_application/run_control.py:84-124 | the constructor of a stage's coverage accepts exactly the counts and totals that recorded work can give |
| `RunCoverage.CoverageFromStatus` | packages/collection_application/src/collection_application/run_control.py:322-379 | for every valid status the report's constructors accept what they are given: no duplicate stage, no duplicate blocker, totals that add up |
| `RunCoverage.BlockersAreWarranted` | packages/collection_application/src/collection_application/run_control.py:345-372 | a blocker is reported exactly when the run state, a stage state, or dead-lettered or policy-blocked work warrants it, with that code, stage and count |
| `RunCoverage.BlockersInOrder` | packages/collection_application/src/collection_application/run_control.py:345-372 | blockers are listed for the run, then stage by stage, and within a stage for its state, dead letters and policy blocks |
| `RunCoverage.ReportConserves` | packages/collection_application/src/collection_application/run_control.py:146-174 | report totals, terminal and succeeded counts equal the recorded work of the whole run |

## Left out

- Sealed bundles: TRUNCATE and schema changes, savepoints, the foreign key to artifact records, text-format CHECK constraints, and two digests sharing one lock hash.
- Canonical documents: the content of each document (its `model_dump`) is an input, and so are the parsed seed rows; that the one is an object and the other a list is `CanonicalDocuments.Kinds`.
- JSON: lone surrogates in `\u` escapes, Python's limit on integer digits and its recursion limit.
- Geography: the shapely union that builds the boundary, the provenance document and the point-in-polygon port.
- Overpass: query text below the selector level (regular-expression escaping and quoting) and the response decoder; the renderer is a parameter.
- URLs: bracketed (IPv6) hosts, which the model answers with an error of their own (`BracketedHost`, `Undecided` in manifests), address resolution and the public-address check.
- LeaseHeartbeat.RunKeeps: one `run_once`; the work itself is one step that succeeds or raises, and lease expiry on the server is not modelled. The processing and resolution workers repeat the same heartbeat class.
- Dependency closure: TOML parsing, and `_normalize_distribution_name`, which is a parameter.
- HttpManifest.BuildManifest: robots.txt, XML and HTML parsing, `urljoin`, the content type and the Retry-After value are inputs or absent.
- CampaignCompile.ValidateReferences: violations keep their kind, reference and key, not the wording of the error context, and their order is not stated.
- CampaignBootstrap.Create: the run record, the clock and the store are not modelled; publishing an artifact is a function that may fail, and the rate of a network source is a real number.
- PipelineTransitions.PlanOf: the wording of blockers is a parameter; token and digest format checks are not modelled.
- RunCoverage.CoverageFromStatus: blocker wording, run identity and timestamps are not modelled.
- The work engine, lease lifecycle, retry and pipeline-advancement adapters, HTTP routes and schemas, credentials, object storage, Docker and Git tooling, the other migrations, and the manual-import, resolution and quality cores.
