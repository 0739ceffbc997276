/**
  `normalize_http_url` and `canonical_origin`: the textual identity of an HTTP resource.

  Text handling follows Python 3.13.  What depends on Unicode tables comes in as a
  parameter; on ASCII text those tables are spelled out here.
 */
module Urls {
  import opened Text
  import opened Utf8
  import opened Pieces
  import Paths = UrlPaths
  import Query = UrlQuery

  /** The Unicode tables: lower-casing, case folding, the check `urlsplit` makes on a wide
      network location, and the IDNA codec on a wide host. */
  datatype Unicode = Unicode(
    lower: string -> string,
    fold: string -> string,
    netlocOk: string -> bool,
    toAscii: string -> Option<string>)

  /** `SplitFailed` is a ValueError raised by `urlsplit`; `BracketedHost` marks literals in
      brackets, which are not modelled. */
  datatype UrlError =
    Invalid | SplitFailed | BracketedHost | SchemeForbidden | UserInfo | HostMissing | HostInvalid | PortInvalid

  datatype Parts = Parts(scheme: string, netloc: string, path: string, query: string)

  // -------------------------------------------------------------- characters

  predicate Printable(c: char) {
    c as int >= 32
  }

  predicate IsLetter(c: char) {
    'a' <= c <= 'z' || 'A' <= c <= 'Z'
  }

  predicate SchemeChar(c: char) {
    IsLetter(c) || IsDigit(c) || c == '+' || c == '-' || c == '.'
  }

  /** What ends a network location. */
  predicate Delim(c: char) {
    c == '/' || c == '?' || c == '#'
  }

  predicate Bracket(c: char) {
    c == '[' || c == ']'
  }

  function Lower(env: Unicode, s: string): string {
    if IsAscii(s) then LowerAscii(s) else env.lower(s)
  }

  function SkipSpaces(s: string): string {
    if s != [] && s[0] as int <= 32 then SkipSpaces(s[1..]) else s
  }

  // ---------------------------------------------------------------- urlsplit

  predicate HasScheme(u: string) {
    var head := Upto(u, Is(':'));
    0 < |head| < |u| && IsLetter(u[0]) && All(head, SchemeChar)
  }

  /** The scheme and what follows its colon. */
  function CutScheme(u: string): (string, string) {
    if HasScheme(u) then (LowerAscii(Upto(u, Is(':'))), After(u, Is(':'))) else ("", u)
  }

  function CutNetloc(rest: string): (string, string) {
    if |rest| >= 2 && rest[0] == '/' && rest[1] == '/' then
      var netloc := Upto(rest[2..], Delim);
      (netloc, rest[2 + |netloc|..])
    else ("", rest)
  }

  /** The path and the query of what follows the network location; the fragment is dropped. */
  function CutTail(tail: string): (string, string) {
    var kept := Upto(tail, Is('#'));
    (Upto(kept, Is('?')), After(kept, Is('?')))
  }

  /** A bracket without its partner is a ValueError; a pair starts the check of an address literal. */
  function BracketFault(netloc: string): Option<UrlError> {
    if ('[' in netloc) != (']' in netloc) then Some(SplitFailed)
    else if '[' in netloc then Some(BracketedHost)
    else None
  }

  function SplitUrl(env: Unicode, url: string): Result<Parts, UrlError> {
    var (scheme, rest) := CutScheme(SkipSpaces(url));
    var (netloc, tail) := CutNetloc(rest);
    var (path, query) := CutTail(tail);
    if BracketFault(netloc).Some? then Err(BracketFault(netloc).value)
    else if !IsAscii(netloc) && !env.netlocOk(netloc) then Err(SplitFailed)
    else Ok(Parts(scheme, netloc, path, query))
  }

  /** `urlunsplit` for a nonempty network location and an empty fragment. */
  function Unsplit(p: Parts): string {
    p.scheme + [':'] + "//" + p.netloc + p.path + if p.query == "" then "" else ['?'] + p.query
  }

  // -------------------------------------------------------- the authority

  function RawHost(netloc: string): string {
    Upto(netloc, Is(':'))
  }

  function PortText(netloc: string): string {
    After(netloc, Is(':'))
  }

  /** `SplitResult.hostname`: lower case up to a zone mark. */
  function Hostname(env: Unicode, raw: string): string {
    var head := Upto(raw, Is('%'));
    Lower(env, head) + raw[|head|..]
  }

  predicate LabelOk(part: string) {
    0 < |part| < 64
  }

  /** The length rules of the IDNA codec: only the last label may be empty. */
  predicate LabelsOk(host: string) {
    var labels := Split(host, '.');
    (forall i :: 0 <= i < |labels| - 1 ==> LabelOk(labels[i])) && |labels[|labels| - 1]| < 64
  }

  /** `hostname.encode("idna").decode("ascii")`. */
  function Idna(env: Unicode, host: string): Option<string> {
    if IsAscii(host) then (if LabelsOk(host) then Some(host) else None) else env.toAscii(host)
  }

  /** `SplitResult.port`: None when absent, an error when it is not a number up to 65535. */
  function PortOf(text: string): (r: Result<Option<nat>, UrlError>)
    ensures r.Err? ==> r.error == PortInvalid
  {
    if text == "" then Ok(None)
    else if !AllDigits(text) then Err(PortInvalid)
    else if NatValue(text) > 65535 then Err(PortInvalid)
    else Ok(Some(NatValue(text)))
  }

  function DefaultPort(scheme: string): nat {
    if scheme == "http" then 80 else 443
  }

  /** Where a request for the URL would go. */
  datatype Origin = Origin(scheme: string, host: string, port: nat)

  function OriginOf(env: Unicode, p: Parts): (r: Result<Origin, UrlError>)
    ensures r.Err? ==> r.error != Invalid && r.error != SplitFailed && r.error != BracketedHost
  {
    if p.scheme != "http" && p.scheme != "https" then Err(SchemeForbidden)
    else if '@' in p.netloc then Err(UserInfo)
    else if Hostname(env, RawHost(p.netloc)) == "" then Err(HostMissing)
    else
      match Idna(env, Hostname(env, RawHost(p.netloc)))
      case None => Err(HostInvalid)
      case Some(ascii) =>
        match PortOf(PortText(p.netloc))
        case Err(e) => Err(e)
        case Ok(None) => Ok(Origin(p.scheme, LowerAscii(ascii), DefaultPort(p.scheme)))
        case Ok(Some(port)) =>
          if port < 1 then Err(PortInvalid) else Ok(Origin(p.scheme, LowerAscii(ascii), port))
  }

  function Netloc(o: Origin): string {
    if o.port == DefaultPort(o.scheme) then o.host else o.host + [':'] + NatText(o.port)
  }

  // ------------------------------------------------------------ normalisation

  /** Keeps the pairs whose folded key is not a tracking parameter. */
  function Kept(env: Unicode, tracking: set<string>): Query.Pair -> bool {
    (p: Query.Pair) => env.fold(p.key) !in tracking
  }

  predicate Acceptable(url: string) {
    0 < |url| <= 4096 && All(url, Printable)
  }

  function NormalParts(o: Origin, p: Parts, keep: Query.Pair -> bool): Parts {
    Parts(o.scheme, Netloc(o), Paths.NormalPath(p.path), Query.NormalQuery(p.query, keep))
  }

  /** The normal form of a URL, or why it has none. */
  function Normal(env: Unicode, keep: Query.Pair -> bool, url: string): Result<string, UrlError> {
    if !Acceptable(url) then Err(Invalid)
    else
      match SplitUrl(env, url)
      case Err(e) => Err(e)
      case Ok(p) =>
        match OriginOf(env, p)
        case Err(e) => Err(e)
        case Ok(o) => Ok(Unsplit(NormalParts(o, p, keep)))
  }

  /** `canonical_origin`: the scheme and network location of the normal form. */
  function CanonicalOrigin(env: Unicode, url: string): Result<string, UrlError> {
    match Normal(env, Kept(env, {}), url)
    case Err(e) => Err(e)
    case Ok(normal) =>
      match SplitUrl(env, normal)
      case Err(e) => Err(e)
      case Ok(p) => Ok(p.scheme + "://" + p.netloc)
  }

  method NormalizeHttpUrl(env: Unicode, url: string, trackingParameters: set<string>)
    returns (r: Result<string, UrlError>)
    ensures r == Normal(env, Kept(env, set t | t in trackingParameters :: env.fold(t)), url)
    ensures Sane(env) && r.Ok? ==> PairsKept(env, url, trackingParameters, r.value)
  {
    var keep := Kept(env, set t | t in trackingParameters :: env.fold(t));
    NormalUnfold(env, keep, url);
    NormalKeepsPairs(env, trackingParameters, url);
    if url == "" || |url| > 4096 || exists i :: 0 <= i < |url| && !Printable(url[i]) {
      return Err(Invalid);
    }
    var split := SplitUrl(env, url);
    if split.Err? {
      return Err(split.error);
    }
    var p := split.value;
    var netloc := NormalizeNetloc(env, p);
    if netloc.Err? {
      return Err(netloc.error);
    }
    var path := Paths.NormalizePath(p.path);
    var query := NormalizeQuery(p.query, keep);
    OriginScheme(env, p);
    r := Ok(Unsplit(Parts(p.scheme, netloc.value, path, query)));
  }

  lemma {:induction false} OriginScheme(env: Unicode, p: Parts)
    ensures OriginOf(env, p).Ok? ==> OriginOf(env, p).value.scheme == p.scheme
  {
  }

  method NormalizeQuery(query: string, keep: Query.Pair -> bool) returns (r: string)
    ensures r == Query.NormalQuery(query, keep)
  {
    var pairs := Query.Filter(Query.ParseQuery(query), keep);
    pairs := Sort(pairs, Query.PairLe);
    r := Query.EncodeQuery(pairs);
  }

  /** The checks on scheme, user information, host and port, and the network location they leave. */
  method NormalizeNetloc(env: Unicode, p: Parts) returns (r: Result<string, UrlError>)
    ensures OriginOf(env, p).Ok? ==> r == Ok(Netloc(OriginOf(env, p).value))
    ensures OriginOf(env, p).Err? ==> r == Err(OriginOf(env, p).error)
  {
    if p.scheme != "http" && p.scheme != "https" {
      return Err(SchemeForbidden);
    }
    if '@' in p.netloc {
      return Err(UserInfo);
    }
    var hostname := Hostname(env, RawHost(p.netloc));
    if hostname == "" {
      return Err(HostMissing);
    }
    var ascii := Idna(env, hostname);
    if ascii.None? {
      return Err(HostInvalid);
    }
    var host := LowerAscii(ascii.value);
    var port := PortOf(PortText(p.netloc));
    if port.Err? || (port.value.Some? && !(1 <= port.value.value <= 65535)) {
      return Err(PortInvalid);
    }
    var default := if p.scheme == "http" then 80 else 443;
    r := Ok(if port.value.None? || port.value.value == default then host
            else host + [':'] + NatText(port.value.value));
  }

  // --------------------------------------- what splitting an URL guarantees

  lemma {:induction false} SkipSpacesPrintable(s: string)
    requires All(s, Printable)
    ensures All(SkipSpaces(s), Printable)
  {
    if s != [] && s[0] as int <= 32 {
      SkipSpacesPrintable(s[1..]);
    }
  }

  lemma {:induction false} SkipSpacesSuffix(s: string)
    ensures s == [] || s[0] as int > 32 ==> SkipSpaces(s) == s
  {
  }

  lemma {:induction false} CutSchemePrintable(u: string)
    requires All(u, Printable)
    ensures All(CutScheme(u).1, Printable)
  {
  }

  lemma {:induction false} CutNetlocFacts(rest: string)
    requires All(rest, Printable)
    ensures var (netloc, tail) := CutNetloc(rest);
      && All(netloc, Printable) && All(tail, Printable) && Free(netloc, Delim)
      && (netloc != "" ==> tail == "" || Delim(tail[0]))
  {
    if |rest| >= 2 && rest[0] == '/' && rest[1] == '/' {
      var body := rest[2..];
      var netloc := Upto(body, Delim);
      assert rest[2 + |netloc|..] == body[|netloc|..];
    }
  }

  lemma {:induction false} CutTailFacts(tail: string)
    requires All(tail, Printable)
    ensures var (path, query) := CutTail(tail);
      && All(path, Printable) && Free(path, Is('?')) && Free(path, Is('#'))
      && (tail == "" || Delim(tail[0]) ==> path == "" || path[0] == '/')
  {
    var kept := Upto(tail, Is('#'));
    var path := Upto(kept, Is('?'));
    assert forall i :: 0 <= i < |path| ==> path[i] == kept[i] == tail[i];
    assert forall i :: 0 <= i < |kept| ==> !Is('#')(kept[i]);
    if path != "" {
      assert !Is('#')(path[0]) && !Is('?')(path[0]);
    }
  }

  predicate PathFit(path: string) {
    && (path == "" || path[0] == '/')
    && All(path, Printable) && Free(path, Is('?')) && Free(path, Is('#'))
  }

  predicate NetlocFit(netloc: string) {
    All(netloc, Printable) && Free(netloc, Delim)
  }

  lemma {:induction false} SplitFacts(env: Unicode, url: string)
    requires All(url, Printable) && SplitUrl(env, url).Ok?
    ensures var p := SplitUrl(env, url).value;
      && NetlocFit(p.netloc) && Free(p.netloc, Bracket) && (p.netloc != "" ==> PathFit(p.path))
      && (IsAscii(p.netloc) || env.netlocOk(p.netloc))
  {
    SkipSpacesPrintable(url);
    var u := SkipSpaces(url);
    CutSchemePrintable(u);
    var rest := CutScheme(u).1;
    CutNetlocFacts(rest);
    CutTailFacts(CutNetloc(rest).1);
  }

  // ------------------------------------------------- splitting a normal form

  lemma {:induction false} CutWebScheme(scheme: string, rest: string)
    requires scheme == "http" || scheme == "https"
    ensures SkipSpaces(scheme + [':'] + rest) == scheme + [':'] + rest
    ensures CutScheme(scheme + [':'] + rest) == (scheme, rest)
  {
    var u := scheme + [':'] + rest;
    SchemeFacts(scheme);
    assert u[0] == 'h';
    SkipSpacesSuffix(u);
    AfterStop(scheme, ':', rest);
  }

  lemma {:induction false} SchemeFacts(scheme: string)
    requires scheme == "http" || scheme == "https"
    ensures scheme[0] == 'h' && All(scheme, SchemeChar) && Free(scheme, Is(':')) && LowerAscii(scheme) == scheme
  {
  }

  lemma {:induction false} CutShownNetloc(netloc: string, tail: string)
    requires Free(netloc, Delim) && (tail == "" || Delim(tail[0]))
    ensures CutNetloc("//" + netloc + tail) == (netloc, tail)
  {
    var rest := "//" + netloc + tail;
    assert rest[2..] == netloc + tail;
    UptoStop(netloc, Delim, tail);
    assert rest[2 + |netloc|..] == tail;
  }

  function Tail(path: string, query: string): string {
    path + if query == "" then "" else ['?'] + query
  }

  lemma {:induction false} CutShownTail(path: string, query: string)
    requires Free(path, Is('?')) && Free(path, Is('#')) && Free(query, Is('#'))
    ensures CutTail(Tail(path, query)) == (path, query)
  {
    var tail := Tail(path, query);
    assert Free(tail, Is('#'));
    UptoFree(tail, Is('#'));
    if query == "" {
      assert tail == path;
      UptoFree(path, Is('?'));
    } else {
      assert tail == path + ['?'] + query;
      AfterStop(path, '?', query);
    }
  }

  lemma {:induction false} SplitFrom(env: Unicode, url: string, p: Parts, rest: string, tail: string)
    requires CutScheme(SkipSpaces(url)) == (p.scheme, rest)
    requires CutNetloc(rest) == (p.netloc, tail) && (IsAscii(p.netloc) || env.netlocOk(p.netloc))
    requires CutTail(tail) == (p.path, p.query)
    ensures SplitUrl(env, url) ==
      if BracketFault(p.netloc).Some? then Err(BracketFault(p.netloc).value) else Ok(p)
  {
  }

  lemma {:induction false} Brackets(netloc: string)
    ensures Free(netloc, Bracket) <==> '[' !in netloc && ']' !in netloc
    ensures Free(netloc, Bracket) <==> BracketFault(netloc).None?
  {
    if Free(netloc, Bracket) {
      forall i | 0 <= i < |netloc| ensures netloc[i] != '[' && netloc[i] != ']' {
        assert !Bracket(netloc[i]);
      }
    } else {
      var i :| 0 <= i < |netloc| && Bracket(netloc[i]);
      assert netloc[i] in netloc;
    }
  }

  /** Splitting undoes unsplitting, unless the network location carries brackets. */
  lemma {:induction false} SplitUnsplit(env: Unicode, p: Parts)
    requires p.scheme == "http" || p.scheme == "https"
    requires Free(p.netloc, Delim) && (IsAscii(p.netloc) || env.netlocOk(p.netloc))
    requires PathFit(p.path) && p.path != "" && Free(p.query, Is('#'))
    ensures SplitUrl(env, Unsplit(p)) ==
      if BracketFault(p.netloc).Some? then Err(BracketFault(p.netloc).value) else Ok(p)
  {
    var tail := Tail(p.path, p.query);
    var rest := "//" + p.netloc + tail;
    assert Unsplit(p) == p.scheme + [':'] + rest;
    CutWebScheme(p.scheme, rest);
    CutShownNetloc(p.netloc, tail);
    CutShownTail(p.path, p.query);
    SplitFrom(env, Unsplit(p), p, rest, tail);
  }

  // ------------------------------------------------------- the host settles

  /** What the Unicode tables are trusted for.  The IDNA codec turns the wide host of a network
      location that passed `urlsplit` into ASCII text without a control character or a delimiter,
      never empty; `urlsplit` has by then refused what folds to '/', '?', '#', '@' or ':'.
      Lower-casing brings in no ASCII character but letters. */
  ghost predicate Sane(env: Unicode) {
    && (forall netloc: string :: env.netlocOk(netloc) && NetlocFit(netloc) && '@' !in netloc ==> CodecFit(env, netloc))
    && (forall s: string :: LowerBringsLetters(s, env.lower(s)))
  }

  predicate CodecFit(env: Unicode, netloc: string) {
    var ascii := env.toAscii(Hostname(env, RawHost(netloc)));
    ascii.Some? ==> HostFit(ascii.value)
  }

  predicate LowerBringsLetters(s: string, r: string) {
    forall i :: 0 <= i < |r| && (r[i] as int) < 128 ==> r[i] in s || IsLetter(r[i])
  }

  predicate HostChar(c: char) {
    32 <= c as int < 128 && !Delim(c) && c != '@' && c != ':'
  }

  predicate HostFit(h: string) {
    h != "" && All(h, HostChar)
  }

  /** A host that the codec would accept again and that no bracket check stops. */
  predicate Settled(h: string) {
    LabelsOk(h) && Free(h, Bracket)
  }

  lemma {:induction false} LowerFit(h: string)
    requires HostFit(h)
    ensures HostFit(LowerAscii(h))
    ensures LowerAscii(LowerAscii(h)) == LowerAscii(h)
  {
    var r := LowerAscii(h);
    forall i | 0 <= i < |r| ensures HostChar(r[i]) {
      assert HostChar(h[i]);
    }
  }

  lemma {:induction false} LowerUpto(s: string)
    ensures |Upto(LowerAscii(s), Is('.'))| == |Upto(s, Is('.'))|
    ensures After(LowerAscii(s), Is('.')) == LowerAscii(After(s, Is('.')))
  {
    var head := Upto(s, Is('.'));
    var low := LowerAscii(s);
    forall i | 0 <= i < |head| ensures !Is('.')(low[i]) {
      assert !Is('.')(head[i]) && head[i] == s[i];
    }
    assert low == low[..|head|] + low[|head|..];
    assert Free(low[..|head|], Is('.'));
    UptoStop(low[..|head|], Is('.'), low[|head|..]);
  }

  /** Same labels by length. */
  ghost predicate SameSizes(a: seq<string>, b: seq<string>) {
    |a| == |b| && forall i :: 0 <= i < |a| ==> |a[i]| == |b[i]|
  }

  lemma {:induction false} SplitUnfold(s: string, c: char)
    ensures |Upto(s, Is(c))| == |s| ==> Split(s, c) == [s]
    ensures |Upto(s, Is(c))| < |s| ==> Split(s, c) == [Upto(s, Is(c))] + Split(After(s, Is(c)), c)
  {
  }

  lemma {:induction false} SameSizesCons(x: string, a: seq<string>, y: string, b: seq<string>)
    requires |x| == |y| && SameSizes(a, b)
    ensures SameSizes([x] + a, [y] + b)
  {
  }

  lemma {:induction false} LowerSplit(s: string)
    ensures SameSizes(Split(LowerAscii(s), '.'), Split(s, '.'))
    decreases |s|
  {
    LowerUpto(s);
    var low := LowerAscii(s);
    SplitUnfold(s, '.');
    SplitUnfold(low, '.');
    if |Upto(s, Is('.'))| < |s| {
      var rest := After(s, Is('.'));
      LowerSplit(rest);
      SameSizesCons(Upto(low, Is('.')), Split(LowerAscii(rest), '.'), Upto(s, Is('.')), Split(rest, '.'));
    }
  }

  lemma {:induction false} LowerLabels(s: string)
    ensures LabelsOk(LowerAscii(s)) <==> LabelsOk(s)
  {
    LowerSplit(s);
  }

  lemma {:induction false} LowerBrackets(s: string)
    ensures Free(LowerAscii(s), Bracket) <==> Free(s, Bracket)
  {
    var r := LowerAscii(s);
    if Free(r, Bracket) {
      forall i | 0 <= i < |s| ensures !Bracket(s[i]) {
        assert !Bracket(r[i]);
      }
    }
    if Free(s, Bracket) {
      forall i | 0 <= i < |r| ensures !Bracket(r[i]) {
        assert !Bracket(s[i]);
      }
    }
  }

  lemma {:induction false} LowerChars(env: Unicode, s: string)
    requires Sane(env)
    ensures LowerBringsLetters(s, Lower(env, s))
  {
    var r := Lower(env, s);
    if IsAscii(s) {
      forall i | 0 <= i < |r| ensures r[i] in s || IsLetter(r[i]) {
        assert s[i] in s;
      }
    }
  }

  lemma {:induction false} HostnameChars(env: Unicode, raw: string)
    requires Sane(env)
    ensures LowerBringsLetters(raw, Hostname(env, raw))
  {
    var head := Upto(raw, Is('%'));
    LowerChars(env, head);
    assert raw == head + raw[|head|..];
  }

  /** What a raw host cannot contain. */
  predicate RawFit(raw: string) {
    forall c :: c in raw ==> Printable(c) && !Delim(c) && c != '@' && c != ':' && !Bracket(c)
  }

  lemma {:induction false} RawHostFit(netloc: string)
    requires NetlocFit(netloc) && '@' !in netloc && Free(netloc, Bracket)
    ensures RawFit(RawHost(netloc))
  {
    var raw := RawHost(netloc);
    forall c | c in raw ensures Printable(c) && !Delim(c) && c != '@' && c != ':' && !Bracket(c) {
      var i :| 0 <= i < |raw| && raw[i] == c;
      assert !Is(':')(raw[i]) && raw[i] == netloc[i] && !Delim(netloc[i]) && !Bracket(netloc[i]);
      assert netloc[i] in netloc;
    }
  }

  lemma {:induction false} AsciiHostnameFit(env: Unicode, raw: string)
    requires Sane(env) && RawFit(raw)
    requires Hostname(env, raw) != "" && IsAscii(Hostname(env, raw))
    ensures HostFit(Hostname(env, raw)) && Free(Hostname(env, raw), Bracket)
  {
    HostnameChars(env, raw);
  }

  lemma {:induction false} LowerPrefix(h: string, n: nat)
    requires n <= |h| && LowerAscii(h) == h
    ensures LowerAscii(h[..n]) == h[..n]
  {
    forall i | 0 <= i < n ensures LowerAscii(h[..n])[i] == h[i] {
      assert LowerAscii(h)[i] == h[i];
    }
  }

  lemma {:induction false} HostnameOfLower(env: Unicode, h: string)
    requires IsAscii(h) && LowerAscii(h) == h
    ensures Hostname(env, h) == h
  {
    var n := |Upto(h, Is('%'))|;
    assert Upto(h, Is('%')) == h[..n];
    LowerPrefix(h, n);
    assert IsAscii(h[..n]);
    assert h == h[..n] + h[n..];
  }

  /** Every origin read from an acceptable URL: a lower-case host that fits, and that is
      settled whenever the host was ASCII to begin with. */
  ghost predicate OriginFit(o: Origin) {
    && (o.scheme == "http" || o.scheme == "https")
    && HostFit(o.host) && LowerAscii(o.host) == o.host
    && 1 <= o.port <= 65535
  }

  lemma {:induction false} HostFits(env: Unicode, raw: string)
    requires Sane(env) && RawFit(raw) && Hostname(env, raw) != ""
    requires Idna(env, Hostname(env, raw)).Some?
    requires IsAscii(raw) || HostFit(Idna(env, Hostname(env, raw)).value) || IsAscii(Hostname(env, raw))
    ensures var h := LowerAscii(Idna(env, Hostname(env, raw)).value);
      HostFit(h) && LowerAscii(h) == h && (IsAscii(Hostname(env, raw)) ==> Settled(h))
  {
    var name := Hostname(env, raw);
    AsciiStaysAscii(env, raw);
    if IsAscii(name) {
      AsciiHostnameFit(env, raw);
      LowerLabels(name);
      LowerBrackets(name);
    }
    LowerFit(Idna(env, name).value);
  }

  lemma {:induction false} AsciiStaysAscii(env: Unicode, raw: string)
    ensures IsAscii(raw) ==> IsAscii(Hostname(env, raw))
  {
    var head := Upto(raw, Is('%'));
    if IsAscii(raw) {
      assert IsAscii(head);
      forall i | 0 <= i < |head| ensures (LowerAscii(head)[i] as int) < 0x80 {
        assert (head[i] as int) < 0x80;
      }
    }
  }

  lemma {:induction false} OriginFits(env: Unicode, p: Parts)
    requires Sane(env) && NetlocFit(p.netloc) && Free(p.netloc, Bracket)
    requires IsAscii(p.netloc) || env.netlocOk(p.netloc)
    requires OriginOf(env, p).Ok?
    ensures OriginFit(OriginOf(env, p).value)
    ensures IsAscii(Hostname(env, RawHost(p.netloc))) ==> Settled(OriginOf(env, p).value.host)
    ensures OriginOf(env, p).value.scheme == p.scheme
  {
    NetlocHostFits(env, p.netloc);
  }

  lemma {:induction false} NetlocHostFits(env: Unicode, netloc: string)
    requires Sane(env) && NetlocFit(netloc) && Free(netloc, Bracket) && '@' !in netloc
    requires IsAscii(netloc) || env.netlocOk(netloc)
    requires Hostname(env, RawHost(netloc)) != "" && Idna(env, Hostname(env, RawHost(netloc))).Some?
    ensures var name := Hostname(env, RawHost(netloc)); var h := LowerAscii(Idna(env, name).value);
      HostFit(h) && LowerAscii(h) == h && (IsAscii(name) ==> Settled(h))
  {
    RawHostFit(netloc);
    var raw := RawHost(netloc);
    if IsAscii(netloc) {
      assert IsAscii(raw);
    } else {
      assert CodecFit(env, netloc);
    }
    HostFits(env, raw);
  }

  // ----------------------------------------------- reading an origin again

  lemma {:induction false} NetlocReads(o: Origin)
    requires OriginFit(o)
    ensures RawHost(Netloc(o)) == o.host
    ensures PortText(Netloc(o)) == if o.port == DefaultPort(o.scheme) then "" else NatText(o.port)
    ensures '@' !in Netloc(o) && NetlocFit(Netloc(o)) && IsAscii(Netloc(o))
    ensures BracketFault(Netloc(o)) == BracketFault(o.host)
  {
    HostFree(o.host);
    if o.port == DefaultPort(o.scheme) {
      UptoFree(o.host, Is(':'));
    } else {
      AfterStop(o.host, ':', NatText(o.port));
      DigitsFit(NatText(o.port));
      Seam(o.host, NatText(o.port));
    }
  }

  lemma {:induction false} HostFree(h: string)
    requires HostFit(h)
    ensures Free(h, Is(':')) && '@' !in h && NetlocFit(h) && IsAscii(h)
  {
    assert forall i :: 0 <= i < |h| ==> HostChar(h[i]);
  }

  lemma {:induction false} DigitsFit(t: string)
    requires AllDigits(t)
    ensures '@' !in t && NetlocFit(t) && IsAscii(t) && Free(t, Bracket)
  {
    assert forall i :: 0 <= i < |t| ==> IsDigit(t[i]);
  }

  lemma {:induction false} Seam(h: string, t: string)
    requires '@' !in h && NetlocFit(h) && IsAscii(h)
    requires '@' !in t && NetlocFit(t) && IsAscii(t) && Free(t, Bracket)
    ensures var n := h + [':'] + t;
      '@' !in n && NetlocFit(n) && IsAscii(n) && BracketFault(n) == BracketFault(h)
  {
    Brackets(t);
  }

  lemma {:induction false} PortReads(o: Origin)
    requires OriginFit(o)
    ensures PortOf(NatText(o.port)) == Ok(Some(o.port)) && NatText(o.port) != ""
  {
  }

  lemma {:induction false} OriginUnfold(env: Unicode, p: Parts, h: string)
    requires p.scheme == "http" || p.scheme == "https"
    requires '@' !in p.netloc && Hostname(env, RawHost(p.netloc)) == h != "" && IsAscii(h)
    ensures !LabelsOk(h) ==> OriginOf(env, p) == Err(HostInvalid)
    ensures LabelsOk(h) && PortOf(PortText(p.netloc)) == Ok(None) ==>
      OriginOf(env, p) == Ok(Origin(p.scheme, LowerAscii(h), DefaultPort(p.scheme)))
    ensures forall port: nat :: LabelsOk(h) && PortOf(PortText(p.netloc)) == Ok(Some(port)) && port >= 1 ==>
      OriginOf(env, p) == Ok(Origin(p.scheme, LowerAscii(h), port))
  {
  }

  /** The origin of a rendered origin is that origin, or an error when the host is unsettled. */
  lemma {:induction false} OriginReads(env: Unicode, p: Parts, o: Origin)
    requires OriginFit(o) && p.scheme == o.scheme && p.netloc == Netloc(o)
    ensures LabelsOk(o.host) ==> OriginOf(env, p) == Ok(o)
    ensures !LabelsOk(o.host) ==> OriginOf(env, p) == Err(HostInvalid)
  {
    NetlocReads(o);
    PortReads(o);
    HostFree(o.host);
    HostnameOfLower(env, o.host);
    OriginUnfold(env, p, o.host);
  }

  // ------------------------------------------------------------ main results

  lemma {:induction false} QueryFit(q: string)
    requires All(q, Query.QueryChar)
    ensures Free(q, Is('#')) && All(q, Printable)
  {
    forall i | 0 <= i < |q| ensures Printable(q[i]) && q[i] != '#' {
      assert Query.QueryChar(q[i]);
    }
  }

  lemma {:induction false} NormalQueryFit(query: string, keep: Query.Pair -> bool)
    ensures Free(Query.NormalQuery(query, keep), Is('#'))
    ensures All(Query.NormalQuery(query, keep), Printable)
  {
    Query.EncodedChars(Sort(Query.Meaning(query, keep), Query.PairLe));
    QueryFit(Query.NormalQuery(query, keep));
  }

  predicate PathChar(c: char) {
    Printable(c) && c != '?' && c != '#'
  }

  lemma {:induction false} NormalPathFit(path: string)
    requires PathFit(path)
    ensures PathFit(Paths.NormalPath(path)) && Paths.NormalPath(path) != ""
  {
    forall i | 0 <= i < |path| ensures PathChar(path[i]) {
      assert !Is('?')(path[i]) && !Is('#')(path[i]);
    }
    Paths.NormalPathChars(path, PathChar);
    var r := Paths.NormalPath(path);
    assert forall i :: 0 <= i < |r| ==> PathChar(r[i]);
    NormalPathStart(path);
  }

  lemma {:induction false} NormalPathStart(path: string)
    requires path == "" || path[0] == '/'
    ensures Paths.NormalPath(path) != "" && Paths.NormalPath(path)[0] == '/'
  {
    if path != "" {
      Paths.NormalPathShows(path);
    }
  }

  /** The parts of a normal form: what the whole-URL results rest on. */
  ghost predicate PartsFit(o: Origin, q: Parts) {
    && OriginFit(o) && q.scheme == o.scheme && q.netloc == Netloc(o)
    && PathFit(q.path) && q.path != "" && Free(q.query, Is('#')) && All(q.query, Printable)
  }

  lemma {:induction false} NetlocNonempty(env: Unicode, p: Parts)
    requires OriginOf(env, p).Ok?
    ensures p.netloc != ""
  {
    NoHost(env);
  }

  lemma {:induction false} NoHost(env: Unicode)
    ensures Hostname(env, RawHost("")) == ""
  {
    assert RawHost("") == "";
  }

  lemma {:induction false} NormalPartsFit(env: Unicode, keep: Query.Pair -> bool, url: string)
    requires Sane(env) && Acceptable(url)
    requires SplitUrl(env, url).Ok? && OriginOf(env, SplitUrl(env, url).value).Ok?
    ensures var p := SplitUrl(env, url).value; var o := OriginOf(env, p).value;
      && PathFit(p.path)
      && PartsFit(o, NormalParts(o, p, keep))
      && (IsAscii(Hostname(env, RawHost(p.netloc))) ==> Settled(o.host))
  {
    SplitFacts(env, url);
    var p := SplitUrl(env, url).value;
    NetlocNonempty(env, p);
    OriginFits(env, p);
    NormalPathFit(p.path);
    NormalQueryFit(p.query, keep);
  }

  lemma {:induction false} UnsplitPrintable(o: Origin, q: Parts)
    requires PartsFit(o, q)
    ensures Unsplit(q) != "" && All(Unsplit(q), Printable)
  {
    NetlocReads(o);
    SchemePrintable(o.scheme);
    GluePrintable(q.scheme, q.netloc, q.path, q.query);
  }

  lemma {:induction false} GluePrintable(scheme: string, netloc: string, path: string, query: string)
    requires All(scheme, Printable) && All(netloc, Printable) && All(path, Printable) && All(query, Printable)
    ensures All(Unsplit(Parts(scheme, netloc, path, query)), Printable)
  {
    AllConcat(scheme, [':'], Printable);
    AllConcat(scheme + [':'], "//", Printable);
    AllConcat(scheme + [':'] + "//", netloc, Printable);
    AllConcat(scheme + [':'] + "//" + netloc, path, Printable);
    AllConcat(['?'], query, Printable);
    AllConcat(scheme + [':'] + "//" + netloc + path, if query == "" then "" else ['?'] + query, Printable);
  }

  lemma {:induction false} SchemePrintable(scheme: string)
    requires scheme == "http" || scheme == "https"
    ensures All(scheme, Printable)
  {
  }

  /** Splitting and reading a normal form again. */
  lemma {:induction false} NormalReads(env: Unicode, o: Origin, q: Parts)
    requires PartsFit(o, q)
    ensures SplitUrl(env, Unsplit(q)) ==
      if BracketFault(o.host).Some? then Err(BracketFault(o.host).value) else Ok(q)
    ensures OriginOf(env, q) == if LabelsOk(o.host) then Ok(o) else Err(HostInvalid)
    ensures Settled(o.host) <==> BracketFault(o.host).None? && LabelsOk(o.host)
  {
    NetlocReads(o);
    Brackets(o.host);
    SplitUnsplit(env, q);
    OriginReads(env, q, o);
  }

  lemma {:induction false} NormalUnfold(env: Unicode, keep: Query.Pair -> bool, url: string)
    ensures !Acceptable(url) ==> Normal(env, keep, url) == Err(Invalid)
    ensures SplitUrl(env, url).Err? ==> Normal(env, keep, url).Err?
    ensures forall p :: SplitUrl(env, url) == Ok(p) && OriginOf(env, p).Err? ==> Normal(env, keep, url).Err?
    ensures forall e :: Acceptable(url) && SplitUrl(env, url) == Err(e) ==> Normal(env, keep, url) == Err(e)
    ensures forall p, e :: Acceptable(url) && SplitUrl(env, url) == Ok(p) && OriginOf(env, p) == Err(e) ==>
      Normal(env, keep, url) == Err(e)
    ensures forall p, o :: Acceptable(url) && SplitUrl(env, url) == Ok(p) && OriginOf(env, p) == Ok(o) ==>
      Normal(env, keep, url) == Ok(Unsplit(NormalParts(o, p, keep)))
  {
  }

  lemma {:induction false} NormalAgain(env: Unicode, keep: Query.Pair -> bool, o: Origin, q: Parts)
    requires PartsFit(o, q) && NormalParts(o, q, keep) == q
    ensures Normal(env, keep, Unsplit(q)) == Ok(Unsplit(q)) <==> |Unsplit(q)| <= 4096 && Settled(o.host)
    ensures |Unsplit(q)| > 4096 ==> Normal(env, keep, Unsplit(q)) == Err(Invalid)
  {
    UnsplitPrintable(o, q);
    NormalReads(env, o, q);
    NormalUnfold(env, keep, Unsplit(q));
  }

  /** The normal form is its own normal form exactly when it is within 4096 characters and the
      ASCII host is one the codec accepts again. */
  lemma {:induction false} NormalIdempotent(env: Unicode, keep: Query.Pair -> bool, url: string)
    requires Sane(env) && Normal(env, keep, url).Ok?
    ensures var normal := Normal(env, keep, url).value;
      var o := OriginOf(env, SplitUrl(env, url).value).value;
      && (Normal(env, keep, normal) == Ok(normal) <==> |normal| <= 4096 && Settled(o.host))
      && (|normal| > 4096 ==> Normal(env, keep, normal) == Err(Invalid))
  {
    var p := SplitUrl(env, url).value;
    var o := OriginOf(env, p).value;
    NormalPartsFit(env, keep, url);
    NormalPartsStable(o, p, keep);
    NormalAgain(env, keep, o, NormalParts(o, p, keep));
  }

  lemma {:induction false} NormalPartsStable(o: Origin, p: Parts, keep: Query.Pair -> bool)
    requires PathFit(p.path)
    ensures NormalParts(o, NormalParts(o, p, keep), keep) == NormalParts(o, p, keep)
  {
    Paths.NormalPathIdempotent(p.path);
    Query.NormalQueryIdempotent(p.query, keep);
  }

  /** With an ASCII host (a name or an IPv4 address) only the length can stand in the way. */
  lemma {:induction false} NormalIdempotentForAsciiHosts(env: Unicode, keep: Query.Pair -> bool, url: string)
    requires Sane(env) && Normal(env, keep, url).Ok?
    requires IsAscii(Hostname(env, RawHost(SplitUrl(env, url).value.netloc)))
    ensures var normal := Normal(env, keep, url).value;
      Normal(env, keep, normal) == if |normal| <= 4096 then Ok(normal) else Err(Invalid)
  {
    NormalIdempotent(env, keep, url);
    NormalPartsFit(env, keep, url);
  }

  /** A normal form leads to the same place in the path and has the same pairs, whenever it can be
      split at all; it names the same origin exactly when its host is settled. */
  lemma {:induction false} NormalMeansTheSame(env: Unicode, keep: Query.Pair -> bool, url: string)
    requires Sane(env) && Normal(env, keep, url).Ok?
    ensures var p := SplitUrl(env, url).value;
      var host := OriginOf(env, p).value.host;
      var again := SplitUrl(env, Normal(env, keep, url).value);
      && (again.Ok? <==> Free(host, Bracket))
      && (again.Ok? && OriginOf(env, again.value) == OriginOf(env, p) <==> Settled(host))
      && (again.Ok? ==>
          && (p.path != "" ==> Paths.Stops(again.value.path) == Paths.Stops(p.path))
          && (p.path == "" ==> again.value.path == "/")
          && multiset(Query.ParseQuery(again.value.query)) == multiset(Query.Meaning(p.query, keep))
          && Sorted(Query.ParseQuery(again.value.query), Query.PairLe))
  {
    var p := SplitUrl(env, url).value;
    var o := OriginOf(env, p).value;
    NormalPartsFit(env, keep, url);
    NormalReads(env, o, NormalParts(o, p, keep));
    Brackets(o.host);
    Query.NormalQueryMeaning(p.query, keep);
    if p.path != "" {
      Paths.NormalPathLeadsToTheSamePlace(p.path);
    }
  }

  /** The query text of a URL: what follows the first '?' before the fragment. */
  function QueryText(url: string): string {
    var kept := Upto(url, Is('#'));
    After(kept, Is('?'))
  }

  /** The parameter carries the name of a tracking parameter, whatever the case. */
  ghost predicate Tracked(env: Unicode, trackingParameters: set<string>, p: Query.Pair) {
    exists t :: t in trackingParameters && env.fold(t) == env.fold(p.key)
  }

  /** Every parameter occurs as often as in the original, the tracked ones not at all. */
  ghost predicate PairsKept(env: Unicode, url: string, trackingParameters: set<string>, normal: string) {
    forall p: Query.Pair :: multiset(Query.ParseQuery(QueryText(normal)))[p]
      == if Tracked(env, trackingParameters, p) then 0 else multiset(Query.ParseQuery(QueryText(url)))[p]
  }

  lemma {:induction false} UptoConcat(a: string, b: string, stop: char -> bool)
    ensures Free(a, stop) ==> Upto(a + b, stop) == a + Upto(b, stop)
    ensures !Free(a, stop) ==> Upto(a + b, stop) == Upto(a, stop)
  {
    if a == [] {
      assert a + b == b;
    } else {
      assert (a + b)[1..] == a[1..] + b;
      UptoConcat(a[1..], b, stop);
      assert Free(a, stop) ==> Free(a[1..], stop);
      assert !stop(a[0]) && Free(a[1..], stop) ==> Free(a, stop);
    }
  }

  /** What precedes the tail of a URL has neither a '?' nor a '#'. */
  lemma {:induction false} QueryTextOfTail(front: string, tail: string)
    requires Free(front, Is('?')) && Free(front, Is('#'))
    ensures QueryText(front + tail) == CutTail(tail).1
  {
    UptoConcat(front, tail, Is('#'));
    AfterConcat(front, Upto(tail, Is('#')), Is('?'));
  }

  lemma {:induction false} AfterConcat(front: string, kept: string, stop: char -> bool)
    requires Free(front, stop)
    ensures After(front + kept, stop) == After(kept, stop)
  {
    UptoConcat(front, kept, stop);
    var n := |Upto(kept, stop)|;
    if n < |kept| {
      assert (front + kept)[|front| + n + 1..] == kept[n + 1..];
    }
  }

  lemma {:induction false} SkipSpacesCut(s: string) returns (n: nat)
    ensures n <= |s| && SkipSpaces(s) == s[n..]
    ensures forall i :: 0 <= i < n ==> s[i] as int <= 32
  {
    n := 0;
    if s != [] && s[0] as int <= 32 {
      n := SkipSpacesCut(s[1..]);
      n := n + 1;
    }
  }

  lemma {:induction false} SchemeFront(u: string) returns (front: string)
    ensures u == front + CutScheme(u).1 && Free(front, Is('?')) && Free(front, Is('#'))
  {
    front := "";
    if HasScheme(u) {
      var head := Upto(u, Is(':'));
      front := u[..|head| + 1];
      forall i | 0 <= i < |front| ensures front[i] != '?' && front[i] != '#' {
        assert i < |head| ==> head[i] == front[i] && SchemeChar(head[i]);
      }
    }
  }

  lemma {:induction false} NetlocFront(rest: string) returns (front: string)
    ensures rest == front + CutNetloc(rest).1 && Free(front, Is('?')) && Free(front, Is('#'))
  {
    front := "";
    if |rest| >= 2 && rest[0] == '/' && rest[1] == '/' {
      var netloc := Upto(rest[2..], Delim);
      front := rest[..2 + |netloc|];
      forall i | 0 <= i < |front| ensures front[i] != '?' && front[i] != '#' {
        assert i >= 2 ==> front[i] == netloc[i - 2] && !Delim(netloc[i - 2]);
      }
    }
  }

  lemma {:induction false} ThreeFronts(a: string, b: string, c: string)
    requires (forall i :: 0 <= i < |a| ==> a[i] as int <= 32)
    requires Free(b, Is('?')) && Free(b, Is('#')) && Free(c, Is('?')) && Free(c, Is('#'))
    ensures Free(a + b + c, Is('?')) && Free(a + b + c, Is('#'))
  {
  }

  lemma {:induction false} ThreePieces(url: string, n: nat, one: string, rest: string, two: string, tail: string)
    requires n <= |url| && url[n..] == one + rest && rest == two + tail
    ensures url == url[..n] + one + two + tail
  {
  }

  /** What `urlsplit` takes for the query is the query text. */
  lemma {:induction false} SplitQuery(env: Unicode, url: string)
    requires SplitUrl(env, url).Ok?
    ensures SplitUrl(env, url).value.query == QueryText(url)
  {
    var tail := CutNetloc(CutScheme(SkipSpaces(url)).1).1;
    FrontQuery(url, CutScheme(SkipSpaces(url)).1, tail);
    TailQuery(env, url, tail);
  }

  lemma {:induction false} FrontQuery(url: string, rest: string, tail: string)
    requires rest == CutScheme(SkipSpaces(url)).1 && tail == CutNetloc(rest).1
    ensures QueryText(url) == CutTail(tail).1
  {
    var n := SkipSpacesCut(url);
    var one := SchemeFront(SkipSpaces(url));
    var two := NetlocFront(rest);
    ThreeFronts(url[..n], one, two);
    ThreePieces(url, n, one, rest, two, tail);
    QueryTextOfTail(url[..n] + one + two, tail);
  }

  lemma {:induction false} TailQuery(env: Unicode, url: string, tail: string)
    requires SplitUrl(env, url).Ok? && tail == CutNetloc(CutScheme(SkipSpaces(url)).1).1
    ensures SplitUrl(env, url).value.query == CutTail(tail).1
  {
  }

  lemma {:induction false} ShownQuery(o: Origin, q: Parts)
    requires PartsFit(o, q)
    ensures QueryText(Unsplit(q)) == q.query
  {
    NetlocReads(o);
    var front := q.scheme + [':'] + "//" + q.netloc;
    ShownFront(q.scheme, q.netloc);
    var tail := Tail(q.path, q.query);
    assert Unsplit(q) == front + tail;
    QueryTextOfTail(front, tail);
    CutShownTail(q.path, q.query);
  }

  lemma {:induction false} ShownFront(scheme: string, netloc: string)
    requires scheme == "http" || scheme == "https"
    requires Free(netloc, Delim)
    ensures var front := scheme + [':'] + "//" + netloc; Free(front, Is('?')) && Free(front, Is('#'))
  {
    var front := scheme + [':'] + "//";
    forall i | 0 <= i < |netloc| ensures netloc[i] != '?' && netloc[i] != '#' {
      assert !Delim(netloc[i]);
    }
  }

  /** Of the parameters of the URL exactly the tracked ones are dropped, the others as often as before. */
  lemma {:induction false} NormalKeepsPairs(env: Unicode, trackingParameters: set<string>, url: string)
    ensures var normal := Normal(env, Kept(env, set t | t in trackingParameters :: env.fold(t)), url);
      Sane(env) && normal.Ok? ==> PairsKept(env, url, trackingParameters, normal.value)
  {
    var keep := Kept(env, set t | t in trackingParameters :: env.fold(t));
    if Sane(env) && Normal(env, keep, url).Ok? {
      var p := SplitUrl(env, url).value;
      var o := OriginOf(env, p).value;
      NormalPartsFit(env, keep, url);
      SplitQuery(env, url);
      ShownQuery(o, NormalParts(o, p, keep));
      Query.NormalQueryMeaning(p.query, keep);
      forall pair: Query.Pair
        ensures multiset(Query.ParseQuery(Query.NormalQuery(p.query, keep)))[pair]
          == if Tracked(env, trackingParameters, pair) then 0 else multiset(Query.ParseQuery(p.query))[pair]
      {
        Query.FilterCounts(Query.ParseQuery(p.query), keep, pair);
      }
    }
  }

  function OriginText(o: Origin): string {
    o.scheme + "://" + Netloc(o)
  }

  lemma {:induction false} CanonicalOriginIs(env: Unicode, url: string)
    requires Sane(env) && Normal(env, Kept(env, {}), url).Ok?
    ensures var o := OriginOf(env, SplitUrl(env, url).value).value;
      && OriginFit(o)
      && CanonicalOrigin(env, url) ==
         if BracketFault(o.host).Some? then Err(BracketFault(o.host).value) else Ok(OriginText(o))
  {
    var keep := Kept(env, {});
    var p := SplitUrl(env, url).value;
    var o := OriginOf(env, p).value;
    NormalPartsFit(env, keep, url);
    NormalReads(env, o, NormalParts(o, p, keep));
  }

  lemma {:induction false} OriginTextReads(a: Origin, b: Origin)
    requires OriginFit(a) && OriginFit(b)
    requires OriginText(a) == OriginText(b)
    ensures a == b
  {
    OriginTextCut(a.scheme, Netloc(a));
    OriginTextCut(b.scheme, Netloc(b));
    NetlocIdentifies(a, b);
  }

  lemma {:induction false} OriginTextCut(scheme: string, netloc: string)
    requires scheme == "http" || scheme == "https"
    ensures CutScheme(scheme + "://" + netloc) == (scheme, "//" + netloc)
    ensures ("//" + netloc)[2..] == netloc
  {
    assert scheme + "://" + netloc == scheme + [':'] + ("//" + netloc);
    CutWebScheme(scheme, "//" + netloc);
  }

  lemma {:induction false} NetlocIdentifies(a: Origin, b: Origin)
    requires OriginFit(a) && OriginFit(b) && a.scheme == b.scheme && Netloc(a) == Netloc(b)
    ensures a == b
  {
    NetlocReads(a);
    NetlocReads(b);
    PortReads(a);
    PortReads(b);
  }

  /** Two URLs have the same canonical origin exactly when they share scheme, host and port. */
  lemma {:induction false} CanonicalOriginIdentifies(env: Unicode, a: string, b: string)
    requires Sane(env) && CanonicalOrigin(env, a).Ok? && CanonicalOrigin(env, b).Ok?
    ensures CanonicalOrigin(env, a) == CanonicalOrigin(env, b)
      <==> OriginOf(env, SplitUrl(env, a).value) == OriginOf(env, SplitUrl(env, b).value)
  {
    CanonicalOriginIs(env, a);
    CanonicalOriginIs(env, b);
    if CanonicalOrigin(env, a) == CanonicalOrigin(env, b) {
      OriginTextReads(OriginOf(env, SplitUrl(env, a).value).value, OriginOf(env, SplitUrl(env, b).value).value);
    }
  }

  /** What `canonical_origin` makes of a normal form with this origin. */
  function OriginAfter(o: Origin, length: nat): Result<string, UrlError> {
    if length > 4096 then Err(Invalid)
    else if BracketFault(o.host).Some? then Err(BracketFault(o.host).value)
    else if !LabelsOk(o.host) then Err(HostInvalid)
    else Ok(OriginText(o))
  }

  lemma {:induction false} OriginAgain(env: Unicode, o: Origin, q: Parts)
    requires Sane(env) && PartsFit(o, q)
    ensures CanonicalOrigin(env, Unsplit(q)) == OriginAfter(o, |Unsplit(q)|)
  {
    UnsplitPrintable(o, q);
    NormalReads(env, o, q);
    NormalUnfold(env, Kept(env, {}), Unsplit(q));
    if |Unsplit(q)| <= 4096 && Settled(o.host) {
      CanonicalOriginIs(env, Unsplit(q));
    }
  }

  lemma {:induction false} OriginOfNormal(env: Unicode, keep: Query.Pair -> bool, url: string)
    requires Sane(env) && Normal(env, keep, url).Ok?
    ensures var normal := Normal(env, keep, url).value;
      CanonicalOrigin(env, normal) == OriginAfter(OriginOf(env, SplitUrl(env, url).value).value, |normal|)
  {
    var p := SplitUrl(env, url).value;
    var o := OriginOf(env, p).value;
    NormalPartsFit(env, keep, url);
    OriginAgain(env, o, NormalParts(o, p, keep));
  }

  /** Normalising keeps the canonical origin, whatever parameters are dropped, exactly when the
      normal form is within 4096 characters and its host is settled. */
  lemma {:induction false} NormalKeepsOrigin(env: Unicode, keep: Query.Pair -> bool, url: string)
    requires Sane(env) && Normal(env, keep, url).Ok?
    ensures var normal := Normal(env, keep, url).value;
      var host := OriginOf(env, SplitUrl(env, url).value).value.host;
      (CanonicalOrigin(env, url).Ok? && CanonicalOrigin(env, normal) == CanonicalOrigin(env, url))
      <==> (|normal| <= 4096 && Settled(host))
  {
    NormalUnfold(env, Kept(env, {}), url);
    CanonicalOriginIs(env, url);
    OriginOfNormal(env, keep, url);
    OriginKept(OriginOf(env, SplitUrl(env, url).value).value, |Normal(env, keep, url).value|);
  }

  lemma {:induction false} OriginKept(o: Origin, length: nat)
    ensures OriginAfter(o, length) == Ok(OriginText(o)) <==> length <= 4096 && Settled(o.host)
    ensures Settled(o.host) ==> BracketFault(o.host).None?
  {
    Brackets(o.host);
  }

  // ------------------------------------------------------- an unsettled host

  lemma {:induction false} SplitDots(h: string)
    requires h == "a..b"
    ensures !LabelsOk(h) && HostFit(h) && LowerAscii(h) == h
  {
    EmptyLabel("a", "b");
    assert h == "a" + ['.'] + ("" + ['.'] + "b");
  }

  lemma {:induction false} EmptyLabel(a: string, b: string)
    ensures !LabelsOk(a + ['.'] + ("" + ['.'] + b))
  {
    SplitConcat(a, '.', "" + ['.'] + b);
    SplitConcat("", '.', b);
    UptoFree("", Is('.'));
    var labels := Split(a + ['.'] + ("" + ['.'] + b), '.');
    var n := |Split(a, '.')|;
    assert labels[n] == "" && !LabelOk(labels[n]) && n < |labels| - 1;
  }

  /** A wide host the tables leave as it is: it reads as its ASCII form. */
  lemma {:induction false} WideOrigin(env: Unicode, p: Parts, h: string)
    requires p.scheme == "http"
    requires RawFit(p.netloc) && '%' !in p.netloc && p.netloc != "" && !IsAscii(p.netloc)
    requires env.lower(p.netloc) == p.netloc && env.toAscii(p.netloc) == Some(h)
    ensures OriginOf(env, p) == Ok(Origin("http", LowerAscii(h), 80))
  {
    var w := p.netloc;
    forall i | 0 <= i < |w| ensures !Is(':')(w[i]) && !Is('%')(w[i]) {
      assert w[i] in w;
    }
    UptoFree(w, Is(':'));
    UptoFree(w, Is('%'));
    assert PortText(w) == "";
    assert w + w[|w|..] == w;
    assert Hostname(env, RawHost(w)) == w;
  }

  lemma {:induction false} UnsettledUrl(env: Unicode, keep: Query.Pair -> bool, p: Parts, o: Origin)
    requires Sane(env) && Acceptable(Unsplit(p))
    requires SplitUrl(env, Unsplit(p)) == Ok(p) && OriginOf(env, p) == Ok(o) && !Settled(o.host)
    ensures Normal(env, keep, Unsplit(p)).Ok?
    ensures Normal(env, keep, Normal(env, keep, Unsplit(p)).value) != Normal(env, keep, Unsplit(p))
    ensures CanonicalOrigin(env, Normal(env, keep, Unsplit(p)).value).Err?
  {
    NormalUnfold(env, keep, Unsplit(p));
    NormalIdempotent(env, keep, Unsplit(p));
    OriginOfNormal(env, keep, Unsplit(p));
    Brackets(o.host);
  }

  /** One dot leader (U+2024) folds to a full stop inside a label, so "a..b" comes out of the
      codec although the codec refuses it: the normal form of such a URL is not accepted again and
      has no canonical origin. */
  lemma {:induction false} UnsettledHost(env: Unicode, keep: Query.Pair -> bool, p: Parts, h: string)
    requires p == Parts("http", "a\U{2024}\U{2024}b", "/", "") && h == "a..b"
    requires Sane(env) && env.netlocOk(p.netloc)
    requires env.lower(p.netloc) == p.netloc && env.toAscii(p.netloc) == Some(h)
    ensures var url := Unsplit(p);
      && Normal(env, keep, url).Ok?
      && Normal(env, keep, Normal(env, keep, url).value) != Normal(env, keep, url)
      && CanonicalOrigin(env, Normal(env, keep, url).value).Err?
  {
    WideText(p.netloc);
    WideParts(env, p);
    WideOrigin(env, p, h);
    SplitDots(h);
    UnsettledUrl(env, keep, p, Origin("http", h, 80));
  }

  lemma {:induction false} WideParts(env: Unicode, p: Parts)
    requires p.scheme == "http" && p.path == "/" && p.query == "" && |p.netloc| == 4
    requires Free(p.netloc, Delim) && Free(p.netloc, Bracket) && All(p.netloc, Printable) && env.netlocOk(p.netloc)
    ensures Acceptable(Unsplit(p)) && SplitUrl(env, Unsplit(p)) == Ok(p)
  {
    SchemePrintable(p.scheme);
    GluePrintable(p.scheme, p.netloc, p.path, p.query);
    SplitUnsplit(env, p);
  }

  lemma {:induction false} WideText(w: string)
    requires w == "a\U{2024}\U{2024}b"
    ensures RawFit(w) && '%' !in w && !IsAscii(w) && Free(w, Delim) && Free(w, Bracket) && All(w, Printable)
  {
    assert w[1] as int == 0x2024;
  }
}
