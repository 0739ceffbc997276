/**
  Turning a fetched response into an acquisition manifest: `_build_manifest` of
  apps/http_worker/src/http_worker/worker.py against `validate_outcome_shape` of
  connectors/official_http/src/official_http/contracts.py.

  Body parsers (robots.txt, XML, HTML), `urljoin` and SHA-256 are inputs.  Every one of them,
  like the URL functions, either answers or raises; `Owner` faults are OfficialHttpError,
  `Foreign` ones any other exception.  `Undecided` stands for a host in brackets, which the URL
  model does not read.
 */
module HttpManifest {
  import opened Text
  import opened Utf8
  import opened ResourceRanking
  import Urls
  import Query = UrlQuery

  datatype Code =
    | UrlRefused | BodyRefused
    | NotModifiedWithoutPrior | NotModifiedMismatch
    | LocationMissing | RedirectOriginForbidden
    | Forbidden | RateLimited | ServerUnavailable | StatusUnsupported

  datatype Fault = Owner(code: Code) | Foreign | Undecided

  /** `normalize_http_url` with the request's tracking parameters, and `canonical_origin`. */
  datatype Web = Web(
    normalize: string -> Result<string, Fault>,
    origin: string -> Result<string, Fault>)

  /** An origin is only ever computed for a URL of acceptable length. */
  ghost predicate Lawful(web: Web) {
    forall u :: web.origin(u).Ok? ==> 1 <= |u| <= 4096
  }

  datatype RequestKind = RobotsRequest | SitemapRequest | PageRequest

  datatype Request = Request(
    kind: RequestKind,
    url: string,
    allowedOrigin: string,
    maximumDiscovered: nat,
    rules: seq<Rule>,
    robotsArtifact: Option<string>,
    robotsDecision: Option<string>,
    priorArtifact: Option<string>,
    priorDigest: Option<string>)

  /** The bounds the request contract puts on interest rules. */
  predicate RulesOk(rules: seq<Rule>) {
    forall x :: x in rules ==> 1 <= x.priority <= 1000
  }

  datatype Fetched = Fetched(
    status: int,
    finalUrl: string,
    headers: seq<string>,
    location: Option<string>,
    encodedSize: nat,
    decodedSize: nat,
    utc: bool,
    body: seq<Byte>)

  /** What a parser finds in a body: link values, each the result of a possible `urljoin`. */
  datatype Parsed = Parsed(
    robotsAllowed: bool,
    crawlDelay: Option<real>,
    sitemapIndex: bool,
    links: seq<Result<string, Fault>>,
    canonical: Option<Result<string, Fault>>)

  type Parser = (RequestKind, seq<Byte>) -> Result<Parsed, Fault>

  // -------------------------------------------------------------- candidates

  /** `_same_origin_candidate`: an owner error of the first normalisation skips the link; any
      other exception escapes. */
  function Candidate(web: Web, allowed: string, value: Result<string, Fault>): Result<Option<string>, Fault> {
    match value
    case Err(f) => Err(f)
    case Ok(v) =>
      match web.normalize(v)
      case Err(Owner(_)) => Ok(None)
      case Err(f) => Err(f)
      case Ok(n) =>
        match web.origin(n)
        case Err(f) => Err(f)
        case Ok(o) => if o == allowed then Ok(Some(n)) else Ok(None)
  }

  function Candidates(web: Web, allowed: string, values: seq<Result<string, Fault>>): Result<seq<string>, Fault> {
    if values == [] then Ok([])
    else
      match Candidates(web, allowed, values[..|values| - 1])
      case Err(f) => Err(f)
      case Ok(urls) =>
        match Candidate(web, allowed, values[|values| - 1])
        case Err(f) => Err(f)
        case Ok(None) => Ok(urls)
        case Ok(Some(u)) => Ok(urls + [u])
  }

  method CollectCandidates(web: Web, allowed: string, values: seq<Result<string, Fault>>)
    returns (r: Result<seq<string>, Fault>)
    ensures r == Candidates(web, allowed, values)
  {
    var urls := [];
    for i := 0 to |values|
      invariant Candidates(web, allowed, values[..i]) == Ok(urls)
    {
      assert values[..i + 1][..i] == values[..i];
      var candidate := Candidate(web, allowed, values[i]);
      if candidate.Err? {
        FaultStays(web, allowed, values, i + 1, candidate.error);
        return Err(candidate.error);
      }
      if candidate.value.Some? {
        urls := urls + [candidate.value.value];
      }
    }
    assert values[..|values|] == values;
    r := Ok(urls);
  }

  lemma {:induction false} FaultStays(web: Web, allowed: string, values: seq<Result<string, Fault>>, n: nat, f: Fault)
    requires n <= |values| && Candidates(web, allowed, values[..n]) == Err(f)
    ensures Candidates(web, allowed, values) == Err(f)
    decreases |values| - n
  {
    if n == |values| {
      assert values[..n] == values;
    } else {
      assert values[..n + 1][..n] == values[..n];
      FaultStays(web, allowed, values, n + 1, f);
    }
  }

  /** A link that is kept, as `u`: it has a normal form, and that lies inside the allowed origin. */
  ghost predicate Admitted(web: Web, allowed: string, link: Result<string, Fault>, u: string) {
    link.Ok? && web.normalize(link.value) == Ok(u) && web.origin(u) == Ok(allowed)
  }

  /** A link that is left out: the URL rules refuse it, or it leads elsewhere. */
  ghost predicate Skipped(web: Web, allowed: string, link: Result<string, Fault>) {
    && link.Ok?
    && match web.normalize(link.value)
       case Err(f) => f.Owner?
       case Ok(u) => web.origin(u).Ok? && web.origin(u).value != allowed
  }

  /** A link that raises: in `urljoin`, in normalising it other than by a refusal, or in its origin. */
  ghost predicate Raised(web: Web, link: Result<string, Fault>, f: Fault) {
    match link
    case Err(e) => e == f
    case Ok(v) =>
      match web.normalize(v)
      case Err(e) => e == f && !e.Owner?
      case Ok(u) => web.origin(u) == Err(f)
  }

  lemma {:induction false} CandidateVerdict(web: Web, allowed: string, link: Result<string, Fault>)
    ensures forall u :: Candidate(web, allowed, link) == Ok(Some(u)) <==> Admitted(web, allowed, link, u)
    ensures Candidate(web, allowed, link) == Ok(None) <==> Skipped(web, allowed, link)
    ensures forall f :: Candidate(web, allowed, link) == Err(f) <==> Raised(web, link, f)
  {
  }

  /** The link that stops the collection. */
  ghost predicate FirstFault(web: Web, values: seq<Result<string, Fault>>, i: nat, f: Fault) {
    i < |values| && Raised(web, values[i], f) && forall j, g :: 0 <= j < i ==> !Raised(web, values[j], g)
  }

  /** The kept links. */
  ghost predicate Kept(web: Web, allowed: string, values: seq<Result<string, Fault>>, u: string) {
    exists i :: 0 <= i < |values| && Admitted(web, allowed, values[i], u)
  }

  /** Collection fails exactly with the first fault among the links; otherwise it yields the
      normal forms of the links inside the allowed origin. */
  lemma {:induction false} CandidatesFacts(web: Web, allowed: string, values: seq<Result<string, Fault>>)
    ensures forall f :: Candidates(web, allowed, values) == Err(f) <==>
      exists i: nat :: FirstFault(web, values, i, f)
    ensures Candidates(web, allowed, values).Ok? ==>
      forall u :: u in Candidates(web, allowed, values).value <==> Kept(web, allowed, values, u)
  {
    CandidatesFail(web, allowed, values);
    CandidatesFound(web, allowed, values);
    forall f, i: nat | FirstFault(web, values, i, f) ensures Candidates(web, allowed, values) == Err(f) {
      FirstFaultDecides(web, allowed, values, i, f);
    }
  }

  lemma {:induction false} CandidatesFound(web: Web, allowed: string, values: seq<Result<string, Fault>>)
    ensures Candidates(web, allowed, values).Ok? ==>
      forall u :: u in Candidates(web, allowed, values).value <==> Kept(web, allowed, values, u)
  {
    if values != [] && Candidates(web, allowed, values).Ok? {
      var init, last := values[..|values| - 1], values[|values| - 1];
      CandidatesFound(web, allowed, init);
      CandidateVerdict(web, allowed, last);
      forall u ensures u in Candidates(web, allowed, values).value <==> Kept(web, allowed, values, u) {
        KeptSnoc(web, allowed, init, last, u);
      }
      assert values == init + [last];
    }
  }

  lemma {:induction false} KeptSnoc(
    web: Web, allowed: string, init: seq<Result<string, Fault>>, v: Result<string, Fault>, u: string)
    ensures Kept(web, allowed, init + [v], u) <==> Kept(web, allowed, init, u) || Admitted(web, allowed, v, u)
  {
    var all := init + [v];
    assert all[|init|] == v;
    if Kept(web, allowed, init, u) {
      var i :| 0 <= i < |init| && Admitted(web, allowed, init[i], u);
      assert all[i] == init[i];
    }
  }

  lemma {:induction false} CandidatesFail(web: Web, allowed: string, values: seq<Result<string, Fault>>)
    ensures Candidates(web, allowed, values).Ok? ==>
      forall i, f :: 0 <= i < |values| ==> !Raised(web, values[i], f)
    ensures forall f :: Candidates(web, allowed, values) == Err(f) ==>
      exists i: nat :: FirstFault(web, values, i, f)
  {
    if values != [] {
      var n := |values| - 1;
      var init := values[..n];
      CandidatesFail(web, allowed, init);
      CandidateVerdict(web, allowed, values[n]);
      if Candidates(web, allowed, init).Err? {
        var f := Candidates(web, allowed, init).error;
        var i: nat :| FirstFault(web, init, i, f);
        assert FirstFault(web, values, i, f);
      } else {
        assert forall i, f :: 0 <= i < n ==> !Raised(web, init[i], f);
        assert forall i :: 0 <= i < n ==> init[i] == values[i];
        if Candidate(web, allowed, values[n]).Err? {
          assert FirstFault(web, values, n, Candidate(web, allowed, values[n]).error);
        }
      }
    }
  }

  lemma {:induction false} FirstFaultDecides(
    web: Web, allowed: string, values: seq<Result<string, Fault>>, i: nat, f: Fault)
    requires FirstFault(web, values, i, f)
    ensures Candidates(web, allowed, values) == Err(f)
  {
    CandidatesFail(web, allowed, values[..i]);
    CandidateVerdict(web, allowed, values[i]);
    assert values[..i + 1][..i] == values[..i];
    FaultStays(web, allowed, values, i + 1, f);
  }

  lemma {:induction false} CandidateUrls(web: Web, allowed: string, values: seq<Result<string, Fault>>)
    requires Lawful(web) && Candidates(web, allowed, values).Ok?
    ensures forall u :: u in Candidates(web, allowed, values).value ==>
      web.origin(u) == Ok(allowed) && 1 <= |u| <= 4096
  {
    CandidatesFacts(web, allowed, values);
  }

  // --------------------------------------------------------------- discovery

  function Sitemaps(urls: seq<string>): (r: seq<Resource>)
    ensures |r| == |urls| && forall i :: 0 <= i < |urls| ==> r[i] == Resource(urls[i], Sitemap, None, 1000)
  {
    if urls == [] then [] else [Resource(urls[0], Sitemap, None, 1000)] + Sitemaps(urls[1..])
  }

  function ItemOf(rules: seq<Rule>, kind: Kind, searchable: string -> string): string -> Resource {
    (u: string) => Item(u, kind, rules, searchable)
  }

  /** Every discovered resource satisfies its own field constraints and they come in rank order. */
  ghost predicate ResourcesOk(rs: seq<Resource>) {
    Sorted(rs, RankLe) && UniqueUrls(rs) && forall r :: r in rs ==> 1 <= |r.url| <= 4096 && r.score <= 1000
  }

  lemma {:induction false} ScoreBound(rules: seq<Rule>, searchable: string)
    requires RulesOk(rules)
    ensures Interest(rules, searchable).0 <= 1000
  {
    InterestIsBest(rules, searchable);
  }

  lemma {:induction false} RankedOk(
    rs: seq<Resource>, urls: seq<string>, rules: seq<Rule>, kind: Kind, searchable: string -> string, limit: nat)
    requires RulesOk(rules) && TopOf(rs, urls, ItemOf(rules, kind, searchable), limit)
    requires forall u :: u in urls ==> 1 <= |u| <= 4096
    ensures ResourcesOk(rs)
  {
    forall r | r in rs ensures 1 <= |r.url| <= 4096 && r.score <= 1000 {
      ScoreBound(rules, searchable(r.url));
    }
  }

  lemma {:induction false} SitemapsOk(urls: seq<string>)
    requires forall u :: u in urls ==> 1 <= |u| <= 4096
    ensures ResourcesOk(Sitemaps(SortedSet(urls)))
  {
    SortedSetFacts(urls);
    var names := SortedSet(urls);
    var rs := Sitemaps(names);
    forall i, j | 0 <= i < j < |rs| ensures RankLe(rs[i], rs[j]) && rs[i].url != rs[j].url {
      assert StrLt(names[i], names[j]);
      StrLtIrreflexive(names[i]);
    }
    forall r | r in rs ensures 1 <= |r.url| <= 4096 {
      var i :| 0 <= i < |rs| && rs[i] == r;
      assert names[i] in urls;
    }
  }

  /** The exception, if any, that planning the body of a response raises. */
  function PlanningFault(web: Web, parse: Parser, request: Request, body: seq<Byte>): Option<Fault> {
    match parse(request.kind, body)
    case Err(f) => Some(f)
    case Ok(p) =>
      match Candidates(web, request.allowedOrigin, p.links)
      case Err(f) => Some(f)
      case Ok(_) =>
        if request.kind != PageRequest || p.canonical.None? then None
        else
          match Candidate(web, request.allowedOrigin, p.canonical.value)
          case Err(f) => Some(f)
          case Ok(_) => None
  }

  /** What planning finds: a RobotsEvaluation or a PagePlan. */
  datatype Found = Found(
    resources: seq<Resource>,
    robotsAllowed: Option<bool>,
    crawlDelay: Option<real>,
    canonical: Option<string>)

  /** What planning promises about a body it does not fail on. */
  ghost predicate Planned(
    web: Web, parse: Parser, request: Request, searchable: string -> string, body: seq<Byte>, r: Found)
  {
    PlanningFault(web, parse, request, body).None? && (
      var p := parse(request.kind, body).value;
      var urls := Candidates(web, request.allowedOrigin, p.links).value;
      match request.kind
      case RobotsRequest =>
        r == Found(Sitemaps(SortedSet(urls)), Some(p.robotsAllowed), p.crawlDelay, None)
      case SitemapRequest =>
        var kind := if p.sitemapIndex then Sitemap else Page;
        && TopOf(r.resources, urls, ItemOf(request.rules, kind, searchable), request.maximumDiscovered)
        && r == Found(r.resources, None, None, None)
      case PageRequest =>
        && TopOf(r.resources, urls, ItemOf(request.rules, Page, searchable), request.maximumDiscovered)
        && r == Found(r.resources, None, None, CanonicalOf(web, request.allowedOrigin, p.canonical)))
  }

  /** The canonical link of a page, when it lies inside the allowed origin. */
  function CanonicalOf(web: Web, allowed: string, link: Option<Result<string, Fault>>): Option<string> {
    if link.None? then None
    else
      match Candidate(web, allowed, link.value)
      case Err(_) => None
      case Ok(c) => c
  }

  /** What planning finds, resource by resource: a page or a sitemap, scored by its best interest. */
  lemma {:induction false} PlannedResources(
    web: Web, parse: Parser, request: Request, searchable: string -> string, body: seq<Byte>, found: Found, r: Resource)
    requires RulesOk(request.rules) && Planned(web, parse, request, searchable, body, found) && r in found.resources
    ensures Kept(web, request.allowedOrigin, parse(request.kind, body).value.links, r.url)
    ensures request.kind == RobotsRequest ==> r.kind == Sitemap && r.score == 1000 && r.interest == None
    ensures request.kind != RobotsRequest ==> Best(request.rules, searchable(r.url), r.score, r.interest)
    ensures request.kind == SitemapRequest ==>
      r.kind == if parse(request.kind, body).value.sitemapIndex then Sitemap else Page
    ensures request.kind == PageRequest ==> r.kind == Page
    ensures r.kind == Page ==> r.score > 0
  {
    var links := parse(request.kind, body).value.links;
    var urls := Candidates(web, request.allowedOrigin, links).value;
    CandidatesFacts(web, request.allowedOrigin, links);
    if request.kind == RobotsRequest {
      SortedSetFacts(urls);
      var i :| 0 <= i < |found.resources| && found.resources[i] == r;
      assert r.url == SortedSet(urls)[i];
    } else {
      InterestIsBest(request.rules, searchable(r.url));
    }
  }

  /** `evaluate_robots`, `plan_sitemap` or `plan_html`. */
  method Plan(web: Web, parse: Parser, request: Request, searchable: string -> string, body: seq<Byte>)
    returns (r: Result<Found, Fault>)
    requires Lawful(web) && RulesOk(request.rules)
    ensures r.Err? ==> PlanningFault(web, parse, request, body) == Some(r.error)
    ensures r.Ok? ==> Planned(web, parse, request, searchable, body, r.value) && ResourcesOk(r.value.resources)
  {
    var parsed := parse(request.kind, body);
    if parsed.Err? {
      return Err(parsed.error);
    }
    var p := parsed.value;
    var collected := CollectCandidates(web, request.allowedOrigin, p.links);
    if collected.Err? {
      return Err(collected.error);
    }
    var urls := collected.value;
    CandidateUrls(web, request.allowedOrigin, p.links);
    if request.kind == RobotsRequest {
      SitemapsOk(urls);
      return Ok(Found(Sitemaps(SortedSet(urls)), Some(p.robotsAllowed), p.crawlDelay, None));
    }
    var canonical: Option<string> := None;
    if request.kind == PageRequest && p.canonical.Some? {
      var candidate := Candidate(web, request.allowedOrigin, p.canonical.value);
      if candidate.Err? {
        return Err(candidate.error);
      }
      canonical := candidate.value;
    }
    var kind := if request.kind == SitemapRequest && p.sitemapIndex then Sitemap else Page;
    var ranked := Rank(urls, ItemOf(request.rules, kind, searchable), request.maximumDiscovered);
    RankedOk(ranked, urls, request.rules, kind, searchable, request.maximumDiscovered);
    r := Ok(Found(ranked, None, None, canonical));
  }

  // ---------------------------------------------------------------- manifest

  datatype Outcome = WasFetched | WasEmpty | Unchanged | Redirect | NotFound

  datatype Manifest = Manifest(
    outcome: Outcome,
    status: int,
    requestedUrl: string,
    finalUrl: string,
    headers: seq<string>,
    encodedSize: nat,
    decodedSize: nat,
    utc: bool,
    rawDigest: Option<string>,
    reusedArtifact: Option<string>,
    reusedDigest: Option<string>,
    redirect: Option<string>,
    discovered: seq<Resource>,
    robotsAllowed: Option<bool>,
    robotsArtifact: Option<string>,
    robotsDecision: Option<string>)

  /** The key (-score, url) by which the contract expects resources in order. */
  datatype Key = Key(score: nat, url: string)

  predicate KeyLe(a: Key, b: Key) {
    a.score > b.score || (a.score == b.score && StrLe(a.url, b.url))
  }

  function Keys(rs: seq<Resource>): (ks: seq<Key>)
    ensures |ks| == |rs| && forall i :: 0 <= i < |rs| ==> ks[i] == Key(rs[i].score, rs[i].url)
  {
    if rs == [] then [] else [Key(rs[0].score, rs[0].url)] + Keys(rs[1..])
  }

  /** The field constraints and `validate_outcome_shape`. */
  predicate Shape(m: Manifest) {
    && 100 <= m.status <= 599
    && (forall r :: r in m.discovered ==> 1 <= |r.url| <= 4096 && r.score <= 1000)
    && m.utc
    && m.headers == SortedSet(m.headers)
    && Keys(m.discovered) == Sort(Keys(m.discovered), KeyLe)
    && OutcomeShape(m)
  }

  /** What each outcome requires and excludes. */
  predicate OutcomeShape(m: Manifest) {
    match m.outcome
    case WasFetched =>
      && 200 <= m.status <= 299 && m.rawDigest.Some?
      && m.reusedArtifact.None? && m.reusedDigest.None? && m.redirect.None?
    case WasEmpty =>
      && 200 <= m.status <= 299 && m.decodedSize == 0
      && m.rawDigest.None? && m.reusedArtifact.None? && m.reusedDigest.None? && m.redirect.None?
    case Unchanged =>
      && m.status == 304 && m.reusedArtifact.Some? && m.reusedDigest.Some?
      && m.rawDigest.None? && m.redirect.None?
    case Redirect =>
      && 300 <= m.status <= 399 && m.status != 304 && m.redirect.Some?
      && m.rawDigest.None? && m.reusedArtifact.None? && m.reusedDigest.None?
    case NotFound =>
      && (m.status == 404 || m.status == 410)
      && m.rawDigest.None? && m.reusedArtifact.None? && m.reusedDigest.None? && m.redirect.None?
  }

  lemma {:induction false} KeyLeOrder()
    ensures TotalPreorder(KeyLe)
    ensures forall x, y :: KeyLe(x, y) && KeyLe(y, x) ==> x == y
  {
    StrLeTotalOrder();
    forall x, y ensures KeyLe(x, y) || KeyLe(y, x) {
      assert StrLe(x.url, y.url) || StrLe(y.url, x.url);
    }
    forall x, y, z | KeyLe(x, y) && KeyLe(y, z) ensures KeyLe(x, z) {
      if x.score == y.score == z.score {
        assert StrLe(x.url, y.url) && StrLe(y.url, z.url);
      }
    }
    forall x, y | KeyLe(x, y) && KeyLe(y, x) ensures x == y {
      assert x.score == y.score && StrLe(x.url, y.url) && StrLe(y.url, x.url);
    }
  }

  lemma {:induction false} RankedKeys(rs: seq<Resource>)
    requires Sorted(rs, RankLe)
    ensures Keys(rs) == Sort(Keys(rs), KeyLe)
  {
    KeyLeOrder();
    var ks := Keys(rs);
    forall i, j | 0 <= i < j < |ks| ensures KeyLe(ks[i], ks[j]) {
      assert RankLe(rs[i], rs[j]);
    }
    SortOfSorted(ks, KeyLe);
  }

  /** Which of the four artifact fields are there. */
  ghost predicate Carries(m: Manifest, raw: bool, reused: bool, digest: bool, redirect: bool) {
    && m.rawDigest.Some? == raw && m.reusedArtifact.Some? == reused
    && m.reusedDigest.Some? == digest && m.redirect.Some? == redirect
  }

  /** The contract in words: ranges, order, and for each outcome its statuses and its fields. */
  lemma {:induction false} ShapeSays(m: Manifest)
    ensures Shape(m) <==>
      && 100 <= m.status <= 599 && m.utc
      && Strict(m.headers) && ResourcesFit(m.discovered) && InRankOrder(m.discovered) && OutcomeIs(m)
  {
    SortedSetFacts(m.headers);
    KeysInOrder(m.discovered);
    OutcomeSays(m);
    FitSays(m.discovered);
  }

  ghost predicate ResourcesFit(rs: seq<Resource>) {
    forall i :: 0 <= i < |rs| ==> 1 <= |rs[i].url| <= 4096 && rs[i].score <= 1000
  }

  ghost predicate InRankOrder(rs: seq<Resource>) {
    forall i, j :: 0 <= i < j < |rs| ==> RankedBefore(rs[i], rs[j])
  }

  lemma {:induction false} FitSays(rs: seq<Resource>)
    ensures (forall r :: r in rs ==> 1 <= |r.url| <= 4096 && r.score <= 1000) <==> ResourcesFit(rs)
  {
  }

  ghost predicate OutcomeIs(m: Manifest) {
    && (m.outcome == WasFetched ==> 200 <= m.status < 300 && Carries(m, true, false, false, false))
    && (m.outcome == WasEmpty ==>
          200 <= m.status < 300 && m.decodedSize == 0 && Carries(m, false, false, false, false))
    && (m.outcome == Unchanged ==> m.status == 304 && Carries(m, false, true, true, false))
    && (m.outcome == Redirect ==> 300 <= m.status < 400 && m.status != 304 && Carries(m, false, false, false, true))
    && (m.outcome == NotFound ==> m.status in {404, 410} && Carries(m, false, false, false, false))
  }

  lemma {:induction false} OutcomeSays(m: Manifest)
    ensures OutcomeShape(m) <==> OutcomeIs(m)
  {
  }

  /** Higher scores first, equal scores by URL. */
  ghost predicate RankedBefore(a: Resource, b: Resource) {
    a.score > b.score || (a.score == b.score && (a.url == b.url || StrLt(a.url, b.url)))
  }

  lemma {:induction false} KeysInOrder(rs: seq<Resource>)
    ensures Keys(rs) == Sort(Keys(rs), KeyLe) <==> InRankOrder(rs)
  {
    KeyLeOrder();
    var ks := Keys(rs);
    assert forall i, j :: 0 <= i < j < |rs| ==> (KeyLe(ks[i], ks[j]) <==> RankedBefore(rs[i], rs[j]));
    SortSorts(ks, KeyLe);
    if InRankOrder(rs) {
      SortOfSorted(ks, KeyLe);
    }
  }

  /** The refusal, if any, of a response that is not a success. */
  function Refusal(
    web: Web, join: string -> Result<string, Fault>, request: Request, result: Fetched,
    previous: Option<string>): Option<Fault> {
    var status := result.status;
    if status == 304 then
      if request.priorArtifact.None? || request.priorDigest.None? then Some(Owner(NotModifiedWithoutPrior))
      else if previous != request.priorArtifact then Some(Owner(NotModifiedMismatch))
      else None
    else if status == 404 || status == 410 then None
    else if 300 <= status <= 399 then
      if result.location.None? then Some(Owner(LocationMissing))
      else RedirectRefusal(web, request.allowedOrigin, join(result.location.value))
    else if status == 403 then Some(Owner(Forbidden))
    else if status == 429 then Some(Owner(RateLimited))
    else if 500 <= status <= 599 then Some(Owner(ServerUnavailable))
    else Some(Owner(StatusUnsupported))
  }

  function RedirectRefusal(web: Web, allowed: string, target: Result<string, Fault>): Option<Fault> {
    match target
    case Err(f) => Some(f)
    case Ok(t) =>
      match web.normalize(t)
      case Err(f) => Some(f)
      case Ok(n) =>
        match web.origin(n)
        case Err(f) => Some(f)
        case Ok(o) => if o == allowed then None else Some(Owner(RedirectOriginForbidden))
  }

  /** The fate of a redirect's target. */
  lemma {:induction false} RedirectVerdict(web: Web, allowed: string, target: Result<string, Fault>)
    ensures RedirectRefusal(web, allowed, target).None? <==> exists u :: Admitted(web, allowed, target, u)
    ensures target.Err? ==> RedirectRefusal(web, allowed, target) == Some(target.error)
    ensures target.Ok? && web.normalize(target.value).Err? ==>
      RedirectRefusal(web, allowed, target) == Some(web.normalize(target.value).error)
    ensures forall u :: target.Ok? && web.normalize(target.value) == Ok(u) ==>
      match web.origin(u)
      case Err(f) => RedirectRefusal(web, allowed, target) == Some(f)
      case Ok(o) => o != allowed ==> RedirectRefusal(web, allowed, target) == Some(Owner(RedirectOriginForbidden))
  {
    if target.Ok? && web.normalize(target.value).Ok? {
      var u := web.normalize(target.value).value;
      if web.origin(u) == Ok(allowed) {
        assert Admitted(web, allowed, target, u);
      }
    }
  }

  predicate Success(status: int) {
    200 <= status <= 299
  }

  /** Why building the manifest fails, if it does. */
  function BuildFault(web: Web, parse: Parser, join: string -> Result<string, Fault>, request: Request, result: Fetched,
                      previous: Option<string>): Option<Fault> {
    if Success(result.status) then PlanningFault(web, parse, request, result.body)
    else Refusal(web, join, request, result, previous)
  }

  /** The verdict on every status. */
  lemma {:induction false} StatusTable(
    web: Web, parse: Parser, join: string -> Result<string, Fault>, request: Request, result: Fetched,
    previous: Option<string>)
    ensures var s, fault := result.status, BuildFault(web, parse, join, request, result, previous);
      && (200 <= s <= 299 ==> fault == PlanningFault(web, parse, request, result.body))
      && (s == 304 && (request.priorArtifact == None || request.priorDigest == None) ==>
            fault == Some(Owner(NotModifiedWithoutPrior)))
      && (s == 304 && request.priorArtifact != None && request.priorDigest != None ==>
            fault == if previous == request.priorArtifact then None else Some(Owner(NotModifiedMismatch)))
      && (s == 404 || s == 410 ==> fault == None)
      && (300 <= s <= 399 && s != 304 && result.location == None ==> fault == Some(Owner(LocationMissing)))
      && (300 <= s <= 399 && s != 304 && result.location != None ==>
            fault == RedirectRefusal(web, request.allowedOrigin, join(result.location.value)))
      && (s == 403 ==> fault == Some(Owner(Forbidden)))
      && (s == 429 ==> fault == Some(Owner(RateLimited)))
      && (500 <= s <= 599 ==> fault == Some(Owner(ServerUnavailable)))
      && (s < 200 || (400 <= s <= 499 && s !in {403, 404, 410, 429}) || 600 <= s ==>
            fault == Some(Owner(StatusUnsupported)))
  {
  }

  /** What a manifest repeats of its request and its response. */
  ghost predicate Repeats(m: Manifest, request: Request, result: Fetched) {
    && m.requestedUrl == request.url && m.finalUrl == result.finalUrl
    && m.status == result.status && m.headers == result.headers && m.utc == result.utc
    && m.encodedSize == result.encodedSize && m.decodedSize == result.decodedSize
    && m.robotsArtifact == request.robotsArtifact && m.robotsDecision == request.robotsDecision
  }

  /** `_build_manifest`: for a result with sorted unique headers, UTC time and the decoded size of
      its body, it raises exactly the fault of the table above or yields a manifest the contract
      accepts, with the raw body exactly when the manifest has its digest. */
  method BuildManifest(web: Web, parse: Parser, join: string -> Result<string, Fault>, searchable: string -> string,
                       sha: seq<Byte> -> string, request: Request, result: Fetched, previous: Option<string>)
    returns (r: Result<(Manifest, Option<seq<Byte>>), Fault>)
    requires Lawful(web) && RulesOk(request.rules)
    requires result.utc && Strict(result.headers) && result.decodedSize == |result.body|
    ensures r.Err? <==> BuildFault(web, parse, join, request, result, previous).Some?
    ensures r.Err? ==> BuildFault(web, parse, join, request, result, previous) == Some(r.error)
    ensures r.Ok? ==>
      var (m, raw) := r.value;
      && Shape(m)
      && (raw.Some? <==> m.rawDigest.Some?)
      && (raw.Some? ==> raw.value == result.body && result.body != [] && m.rawDigest == Some(sha(result.body)))
      && (raw.None? ==> result.body == [] || !Success(m.status))
      && Repeats(m, request, result)
      && (Success(m.status) ==> UniqueUrls(m.discovered) && exists found: Found ::
            && Planned(web, parse, request, searchable, result.body, found)
            && m.discovered == found.resources && m.robotsAllowed == found.robotsAllowed)
      && (m.outcome == Unchanged ==>
            m.reusedArtifact == request.priorArtifact == previous && m.reusedDigest == request.priorDigest)
      && (m.outcome == Redirect ==>
            && result.location.Some?
            && Admitted(web, request.allowedOrigin, join(result.location.value), m.redirect.value))
      && (!Success(m.status) ==> m.discovered == [] && m.robotsAllowed == None)
  {
    var discovered: seq<Resource> := [];
    var robotsAllowed: Option<bool> := None;
    var rawDigest: Option<string> := None;
    var reusedArtifact: Option<string> := None;
    var reusedDigest: Option<string> := None;
    var redirect: Option<string> := None;
    var rawBody: Option<seq<Byte>> := None;
    var outcome: Outcome;
    ghost var found := Found([], None, None, None);
    var status := result.status;
    if Success(status) {
      if result.body != [] {
        rawBody, rawDigest := Some(result.body), Some(sha(result.body));
      }
      var planned := Plan(web, parse, request, searchable, result.body);
      if planned.Err? {
        return Err(planned.error);
      }
      found := planned.value;
      discovered, robotsAllowed := planned.value.resources, planned.value.robotsAllowed;
      outcome := if result.body != [] then WasFetched else WasEmpty;
    } else if status == 304 {
      if request.priorArtifact.None? || request.priorDigest.None? {
        return Err(Owner(NotModifiedWithoutPrior));
      }
      if previous != request.priorArtifact {
        return Err(Owner(NotModifiedMismatch));
      }
      reusedArtifact, reusedDigest := request.priorArtifact, request.priorDigest;
      outcome := Unchanged;
    } else if status == 404 || status == 410 {
      outcome := NotFound;
    } else if 300 <= status <= 399 {
      if result.location.None? {
        return Err(Owner(LocationMissing));
      }
      var target := FollowRedirect(web, request.allowedOrigin, join(result.location.value));
      if target.Err? {
        return Err(target.error);
      }
      redirect := Some(target.value);
      outcome := Redirect;
    } else if status == 403 {
      return Err(Owner(Forbidden));
    } else if status == 429 {
      return Err(Owner(RateLimited));
    } else if 500 <= status <= 599 {
      return Err(Owner(ServerUnavailable));
    } else {
      return Err(Owner(StatusUnsupported));
    }
    var m := Manifest(outcome, status, request.url, result.finalUrl, result.headers, result.encodedSize,
                      result.decodedSize, result.utc, rawDigest, reusedArtifact, reusedDigest, redirect, discovered,
                      robotsAllowed, request.robotsArtifact, request.robotsDecision);
    SortedSetFacts(result.headers);
    RankedKeys(discovered);
    r := Ok((m, rawBody));
  }

  method FollowRedirect(web: Web, allowed: string, target: Result<string, Fault>) returns (r: Result<string, Fault>)
    ensures r.Err? ==> RedirectRefusal(web, allowed, target) == Some(r.error)
    ensures r.Ok? ==> RedirectRefusal(web, allowed, target).None? && Admitted(web, allowed, target, r.value)
  {
    if target.Err? {
      return Err(target.error);
    }
    r := web.normalize(target.value);
    if r.Ok? {
      var origin := web.origin(r.value);
      if origin.Err? {
        return Err(origin.error);
      }
      if origin.value != allowed {
        return Err(Owner(RedirectOriginForbidden));
      }
    }
  }

  // --------------------------------------------- when another exception escapes

  /** What a body raises: the fault of its parser, of its first faulty link, or of its canonical link. */
  ghost predicate BodyRaises(web: Web, kind: RequestKind, parsed: Result<Parsed, Fault>, f: Fault) {
    || parsed == Err(f)
    || (parsed.Ok? && exists i: nat :: FirstFault(web, parsed.value.links, i, f))
    || (parsed.Ok? && kind == PageRequest && parsed.value.canonical.Some?
        && (forall i, g :: 0 <= i < |parsed.value.links| ==> !Raised(web, parsed.value.links[i], g))
        && Raised(web, parsed.value.canonical.value, f))
  }

  lemma {:induction false} NoneRaises(web: Web, allowed: string, values: seq<Result<string, Fault>>)
    ensures Candidates(web, allowed, values).Ok? <==> forall i, f :: 0 <= i < |values| ==> !Raised(web, values[i], f)
  {
    CandidatesFail(web, allowed, values);
    if Candidates(web, allowed, values).Err? {
      var i: nat :| FirstFault(web, values, i, Candidates(web, allowed, values).error);
    }
  }

  lemma {:induction false} PlanningFaults(web: Web, parse: Parser, request: Request, body: seq<Byte>, f: Fault)
    ensures PlanningFault(web, parse, request, body) == Some(f)
      <==> BodyRaises(web, request.kind, parse(request.kind, body), f)
  {
    var parsed := parse(request.kind, body);
    if parsed.Ok? {
      var links := parsed.value.links;
      CandidatesFacts(web, request.allowedOrigin, links);
      CandidatesFail(web, request.allowedOrigin, links);
      if parsed.value.canonical.Some? {
        CandidateVerdict(web, request.allowedOrigin, parsed.value.canonical.value);
      }
      NoneRaises(web, request.allowedOrigin, links);
    }
  }

  /** The canonical link is kept like any other. */
  lemma {:induction false} CanonicalKept(web: Web, allowed: string, link: Option<Result<string, Fault>>)
    ensures forall u :: CanonicalOf(web, allowed, link) == Some(u) <==>
      link.Some? && Admitted(web, allowed, link.value, u)
  {
  }

  // ------------------------------------------------------- the URL functions

  /** How an error of the URL functions reaches the planner: a ValueError of `urlsplit` is no owner error. */
  function FaultOf(e: Urls.UrlError): Fault {
    match e
    case SplitFailed => Foreign
    case BracketedHost => Undecided
    case _ => Owner(UrlRefused)
  }

  function Classify(r: Result<string, Urls.UrlError>): Result<string, Fault> {
    match r
    case Ok(u) => Ok(u)
    case Err(e) => Err(FaultOf(e))
  }

  function WebOf(env: Urls.Unicode, tracking: set<string>): Web {
    Web(
      (u: string) => Classify(Urls.Normal(env, Urls.Kept(env, tracking), u)),
      (u: string) => Classify(Urls.CanonicalOrigin(env, u)))
  }

  /** The URL functions meet the assumption on `Web`. */
  lemma {:induction false} WebOfLawful(env: Urls.Unicode, tracking: set<string>)
    ensures Lawful(WebOf(env, tracking))
  {
    var web := WebOf(env, tracking);
    forall u | web.origin(u).Ok? ensures 1 <= |u| <= 4096 {
      Urls.NormalUnfold(env, Urls.Kept(env, {}), u);
      assert Urls.CanonicalOrigin(env, u).Ok?;
    }
  }

  /** The network location `urlsplit` finds in a text. */
  function NetlocOf(v: string): string {
    Urls.CutNetloc(Urls.CutScheme(Urls.SkipSpaces(v)).1).0
  }

  /** `urlsplit` raises a ValueError: a bracket without its partner, or wide text that does not normalise safely. */
  predicate UrlsplitRaises(env: Urls.Unicode, v: string) {
    var netloc := NetlocOf(v);
    || ('[' in netloc) != (']' in netloc)
    || ('[' !in netloc && ']' !in netloc && !IsAscii(netloc) && !env.netlocOk(netloc))
  }

  /** The same for the text of a host. */
  predicate OneBracket(host: string) {
    ('[' in host) != (']' in host)
  }

  /** A URL on which `normalize_http_url` followed by `canonical_origin` raises something other than
      the owner error: `urlsplit` raises on it, or the codec leaves one bracket in its ASCII host and
      the normal form is short enough to be split again. */
  predicate Escapes(env: Urls.Unicode, keep: Query.Pair -> bool, v: string) {
    Urls.Acceptable(v) && (UrlsplitRaises(env, v) || (
      && Urls.SplitUrl(env, v).Ok? && Urls.OriginOf(env, Urls.SplitUrl(env, v).value).Ok?
      && OneBracket(Urls.OriginOf(env, Urls.SplitUrl(env, v).value).value.host)
      && NormalLength(env, keep, v) <= 4096))
  }

  /** A URL on which they raise anything at all. */
  predicate Raises(env: Urls.Unicode, keep: Query.Pair -> bool, v: string) {
    Urls.Acceptable(v) && (Urls.SplitUrl(env, v).Err? || (
      && Urls.OriginOf(env, Urls.SplitUrl(env, v).value).Ok?
      && (NormalLength(env, keep, v) > 4096
          || !Urls.Settled(Urls.OriginOf(env, Urls.SplitUrl(env, v).value).value.host))))
  }

  function NormalLength(env: Urls.Unicode, keep: Query.Pair -> bool, v: string): nat {
    match Urls.Normal(env, keep, v)
    case Ok(normal) => |normal|
    case Err(_) => 0
  }

  lemma {:induction false} SplitFails(env: Urls.Unicode, v: string)
    ensures Urls.SplitUrl(env, v) == Err(Urls.SplitFailed) <==> UrlsplitRaises(env, v)
    ensures Urls.SplitUrl(env, v).Err? ==> Urls.SplitUrl(env, v).error in {Urls.SplitFailed, Urls.BracketedHost}
  {
  }

  /** What a URL leads to once it has been normalised. */
  lemma {:induction false} NormalisedOrigin(env: Urls.Unicode, keep: Query.Pair -> bool, v: string)
    requires Urls.Sane(env) && Urls.Normal(env, keep, v).Ok?
    ensures var n := Urls.Normal(env, keep, v).value;
      var host := Urls.OriginOf(env, Urls.SplitUrl(env, v).value).value.host;
      && (Urls.CanonicalOrigin(env, n) == Err(Urls.SplitFailed) <==> |n| <= 4096 && OneBracket(host))
      && (Urls.CanonicalOrigin(env, n).Err? <==> |n| > 4096 || !Urls.Settled(host))
  {
    Urls.OriginOfNormal(env, keep, v);
    Urls.Brackets(Urls.OriginOf(env, Urls.SplitUrl(env, v).value).value.host);
  }

  lemma {:induction false} NormalVerdict(env: Urls.Unicode, keep: Query.Pair -> bool, v: string)
    ensures Urls.Normal(env, keep, v).Ok? <==>
      Urls.Acceptable(v) && Urls.SplitUrl(env, v).Ok? && Urls.OriginOf(env, Urls.SplitUrl(env, v).value).Ok?
    ensures Urls.Normal(env, keep, v) == Err(Urls.SplitFailed) <==> Urls.Acceptable(v) && UrlsplitRaises(env, v)
    ensures Urls.Normal(env, keep, v).Err? && !Urls.Acceptable(v) ==> Urls.Normal(env, keep, v).error == Urls.Invalid
    ensures Urls.Acceptable(v) && Urls.SplitUrl(env, v).Err? ==>
      Urls.Normal(env, keep, v) == Err(Urls.SplitUrl(env, v).error)
    ensures Urls.Acceptable(v) && Urls.SplitUrl(env, v).Ok? && Urls.Normal(env, keep, v).Err? ==>
      FaultOf(Urls.Normal(env, keep, v).error).Owner?
  {
    SplitFails(env, v);
    Urls.NormalUnfold(env, keep, v);
  }

  /** What normalising `v` and asking for the origin of the result comes to. */
  lemma {:induction false} UrlSummary(env: Urls.Unicode, keep: Query.Pair -> bool, v: string)
    requires Urls.Sane(env)
    ensures var n := Urls.Normal(env, keep, v);
      && ((n == Err(Urls.SplitFailed) || (n.Ok? && Urls.CanonicalOrigin(env, n.value) == Err(Urls.SplitFailed)))
          <==> Escapes(env, keep, v))
      && (((n.Err? && !FaultOf(n.error).Owner?) || (n.Ok? && Urls.CanonicalOrigin(env, n.value).Err?))
          <==> Raises(env, keep, v))
  {
    NormalVerdict(env, keep, v);
    SplitFails(env, v);
    if Urls.Normal(env, keep, v).Ok? {
      NormalisedOrigin(env, keep, v);
    }
  }

  /** The same two answers seen through `Web`. */
  lemma {:induction false} ThroughWeb(
    web: Web, allowed: string, v: string, n: Result<string, Urls.UrlError>, o: Result<string, Urls.UrlError>)
    requires web.normalize(v) == Classify(n) && (n.Ok? ==> web.origin(n.value) == Classify(o))
    ensures var foreign := n == Err(Urls.SplitFailed) || (n.Ok? && o == Err(Urls.SplitFailed));
      && (Candidate(web, allowed, Ok(v)) == Err(Foreign) <==> foreign)
      && (RedirectRefusal(web, allowed, Ok(v)) == Some(Foreign) <==> foreign)
      && (Candidate(web, allowed, Ok(v)).Err? <==> (n.Err? && !FaultOf(n.error).Owner?) || (n.Ok? && o.Err?))
  {
  }

  /** A link, or the target of a redirect, makes the planner raise exactly when its text does. */
  lemma {:induction false} CandidateRaises(env: Urls.Unicode, tracking: set<string>, allowed: string, v: string)
    requires Urls.Sane(env)
    ensures var c := Candidate(WebOf(env, tracking), allowed, Ok(v)); var keep := Urls.Kept(env, tracking);
      && (c == Err(Foreign) <==> Escapes(env, keep, v)) && (c.Err? <==> Raises(env, keep, v))
      && (RedirectRefusal(WebOf(env, tracking), allowed, Ok(v)) == Some(Foreign) <==> Escapes(env, keep, v))
  {
    var web, keep := WebOf(env, tracking), Urls.Kept(env, tracking);
    var n := Urls.Normal(env, keep, v);
    var o := if n.Ok? then Urls.CanonicalOrigin(env, n.value) else n;
    assert web.normalize(v) == Classify(n);
    assert n.Ok? ==> web.origin(n.value) == Classify(o);
    UrlSummary(env, keep, v);
    ThroughWeb(web, allowed, v, n, o);
  }

  // -------------------------------------------------- the exact condition

  /** A link raises something other than the owner error: in `urljoin`, or in the URL functions. */
  predicate LinkEscapes(env: Urls.Unicode, keep: Query.Pair -> bool, link: Result<string, Fault>) {
    link == Err(Foreign) || (link.Ok? && Escapes(env, keep, link.value))
  }

  predicate LinkRaises(env: Urls.Unicode, keep: Query.Pair -> bool, link: Result<string, Fault>) {
    link.Err? || Raises(env, keep, link.value)
  }

  lemma {:induction false} LinkVerdict(
    env: Urls.Unicode, tracking: set<string>, link: Result<string, Fault>)
    requires Urls.Sane(env)
    ensures var web, keep := WebOf(env, tracking), Urls.Kept(env, tracking);
      && (Raised(web, link, Foreign) <==> LinkEscapes(env, keep, link))
      && ((exists f :: Raised(web, link, f)) <==> LinkRaises(env, keep, link))
  {
    var web := WebOf(env, tracking);
    CandidateVerdict(web, "", link);
    if link.Ok? {
      CandidateRaises(env, tracking, "", link.value);
    }
    var c := Candidate(web, "", link);
    if c.Err? {
      assert Raised(web, link, c.error);
    }
  }

  /** The first link that raises escapes. */
  ghost predicate FirstEscapes(env: Urls.Unicode, keep: Query.Pair -> bool, links: seq<Result<string, Fault>>, i: nat) {
    i < |links| && LinkEscapes(env, keep, links[i]) && forall j :: 0 <= j < i ==> !LinkRaises(env, keep, links[j])
  }

  ghost predicate PlanEscapes(
    env: Urls.Unicode, keep: Query.Pair -> bool, kind: RequestKind, parsed: Result<Parsed, Fault>) {
    || parsed == Err(Foreign)
    || (parsed.Ok? && exists i: nat :: FirstEscapes(env, keep, parsed.value.links, i))
    || (parsed.Ok? && kind == PageRequest && parsed.value.canonical.Some?
        && (forall i :: 0 <= i < |parsed.value.links| ==> !LinkRaises(env, keep, parsed.value.links[i]))
        && LinkEscapes(env, keep, parsed.value.canonical.value))
  }

  lemma {:induction false} PlanVerdict(
    env: Urls.Unicode, tracking: set<string>, kind: RequestKind, parsed: Result<Parsed, Fault>)
    requires Urls.Sane(env)
    ensures BodyRaises(WebOf(env, tracking), kind, parsed, Foreign) <==>
      PlanEscapes(env, Urls.Kept(env, tracking), kind, parsed)
  {
    var web, keep := WebOf(env, tracking), Urls.Kept(env, tracking);
    if parsed.Ok? {
      var links := parsed.value.links;
      if parsed.value.canonical.Some? {
        LinkVerdict(env, tracking, parsed.value.canonical.value);
      }
      SameLinks(env, tracking, links);
      SameFirst(env, tracking, links);
    }
  }

  lemma {:induction false} SameLinks(env: Urls.Unicode, tracking: set<string>, links: seq<Result<string, Fault>>)
    requires Urls.Sane(env)
    ensures forall i :: 0 <= i < |links| ==>
      && (Raised(WebOf(env, tracking), links[i], Foreign) <==> LinkEscapes(env, Urls.Kept(env, tracking), links[i]))
      && ((exists f :: Raised(WebOf(env, tracking), links[i], f))
          <==> LinkRaises(env, Urls.Kept(env, tracking), links[i]))
  {
    forall i | 0 <= i < |links|
      ensures Raised(WebOf(env, tracking), links[i], Foreign) <==> LinkEscapes(env, Urls.Kept(env, tracking), links[i])
      ensures (exists f :: Raised(WebOf(env, tracking), links[i], f))
        <==> LinkRaises(env, Urls.Kept(env, tracking), links[i])
    {
      LinkVerdict(env, tracking, links[i]);
    }
  }

  lemma {:induction false} SameFirst(env: Urls.Unicode, tracking: set<string>, links: seq<Result<string, Fault>>)
    requires Urls.Sane(env)
    ensures (exists i: nat :: FirstFault(WebOf(env, tracking), links, i, Foreign))
      <==> (exists i: nat :: FirstEscapes(env, Urls.Kept(env, tracking), links, i))
  {
    var web, keep := WebOf(env, tracking), Urls.Kept(env, tracking);
    SameLinks(env, tracking, links);
    forall i: nat ensures FirstFault(web, links, i, Foreign) <==> FirstEscapes(env, keep, links, i) {
    }
  }

  predicate IsRedirect(status: int) {
    300 <= status <= 399 && status != 304
  }

  lemma {:induction false} ForeignRedirect(web: Web, allowed: string, target: Result<string, Fault>)
    ensures RedirectRefusal(web, allowed, target) == Some(Foreign) <==> Candidate(web, allowed, target) == Err(Foreign)
  {
  }

  lemma {:induction false} ForeignBuild(
    web: Web, parse: Parser, join: string -> Result<string, Fault>, request: Request, result: Fetched,
    previous: Option<string>)
    ensures BuildFault(web, parse, join, request, result, previous) == Some(Foreign) <==>
      || (Success(result.status) && BodyRaises(web, request.kind, parse(request.kind, result.body), Foreign))
      || (IsRedirect(result.status) && result.location.Some? && Raised(web, join(result.location.value), Foreign))
  {
    PlanningFaults(web, parse, request, result.body, Foreign);
    if result.location.Some? {
      ForeignRedirect(web, request.allowedOrigin, join(result.location.value));
      CandidateVerdict(web, request.allowedOrigin, join(result.location.value));
    }
  }

  /** Building a manifest raises something other than its owner error exactly when planning a
      successful response does, or when following a redirect with a location does; and both are read
      off the parsed body, the joined links and the text of the URLs. */
  lemma {:induction false} ForeignFaults(
    env: Urls.Unicode, tracking: set<string>, parse: Parser, join: string -> Result<string, Fault>,
    request: Request, result: Fetched, previous: Option<string>)
    requires Urls.Sane(env)
    ensures var keep := Urls.Kept(env, tracking);
      BuildFault(WebOf(env, tracking), parse, join, request, result, previous) == Some(Foreign) <==>
        || (Success(result.status) && PlanEscapes(env, keep, request.kind, parse(request.kind, result.body)))
        || (IsRedirect(result.status) && result.location.Some? && LinkEscapes(env, keep, join(result.location.value)))
  {
    PlanVerdict(env, tracking, request.kind, parse(request.kind, result.body));
    if result.location.Some? {
      LinkVerdict(env, tracking, join(result.location.value));
    }
    ForeignBuild(WebOf(env, tracking), parse, join, request, result, previous);
  }

  // ------------------------------------------------------------- two failing inputs

  /** The link "http://[" makes planning raise a plain ValueError instead of being skipped. */
  lemma {:induction false} BracketLinkEscapes(env: Urls.Unicode, tracking: set<string>, allowed: string, link: string)
    requires Urls.Sane(env) && link == "http" + [':'] + ("//" + "[" + "")
    ensures Candidates(WebOf(env, tracking), allowed, [Ok(link)]) == Err(Foreign)
  {
    BracketEscapes(env, Urls.Kept(env, tracking), link);
    LinkVerdict(env, tracking, Ok(link));
    assert FirstFault(WebOf(env, tracking), [Ok(link)], 0, Foreign);
    FirstFaultDecides(WebOf(env, tracking), allowed, [Ok(link)], 0, Foreign);
  }

  /** So does a redirect to it, whether `urljoin` raises already or passes the target on. */
  lemma {:induction false} BracketRedirectEscapes(
    env: Urls.Unicode, tracking: set<string>, parse: Parser, join: string -> Result<string, Fault>,
    request: Request, result: Fetched, previous: Option<string>, target: string)
    requires Urls.Sane(env) && target == "http" + [':'] + ("//" + "[" + "")
    requires result.status == 302 && result.location == Some(target)
    requires join(target) == Err(Foreign) || join(target) == Ok(target)
    ensures BuildFault(WebOf(env, tracking), parse, join, request, result, previous) == Some(Foreign)
  {
    BracketEscapes(env, Urls.Kept(env, tracking), target);
    RedirectEscapes(env, tracking, parse, join, request, result, previous);
  }

  lemma {:induction false} RedirectEscapes(
    env: Urls.Unicode, tracking: set<string>, parse: Parser, join: string -> Result<string, Fault>,
    request: Request, result: Fetched, previous: Option<string>)
    requires Urls.Sane(env) && IsRedirect(result.status) && result.location.Some?
    requires LinkEscapes(env, Urls.Kept(env, tracking), join(result.location.value))
    ensures BuildFault(WebOf(env, tracking), parse, join, request, result, previous) == Some(Foreign)
  {
    ForeignFaults(env, tracking, parse, join, request, result, previous);
  }

  lemma {:induction false} BracketEscapes(env: Urls.Unicode, keep: Query.Pair -> bool, link: string)
    requires link == "http" + [':'] + ("//" + "[" + "")
    ensures Escapes(env, keep, link)
  {
    Urls.CutWebScheme("http", "//" + "[" + "");
    Urls.CutShownNetloc("[", "");
    assert '[' in "[" && ']' !in "[";
  }
}
