/**
  Reading a URL written out in full (connectors/official_http/src/official_http/urls.py): the pieces
  `urlsplit` finds in it, the verdict on each of them, and the normal form it gets.
 */
module UrlTexts {
  import opened Text
  import opened Utf8
  import opened Pieces
  import opened Urls
  import Paths = UrlPaths
  import Query = UrlQuery

  // -------------------------------------------------------------- splitting

  /** A URL as written: blanks, scheme, network location, path, query and fragment. */
  datatype Written = Written(
    blanks: string, scheme: string, netloc: string, path: string, query: Option<string>, fragment: Option<string>)

  function Marked(mark: char, text: Option<string>): string {
    if text.Some? then [mark] + text.value else ""
  }

  function TailOf(w: Written): string {
    w.path + Marked('?', w.query) + Marked('#', w.fragment)
  }

  function TextOf(w: Written): string {
    w.blanks + (w.scheme + [':'] + ("//" + w.netloc + TailOf(w)))
  }

  /** Letter by letter the scheme, in upper or lower case. */
  ghost predicate Spells(scheme: string, name: string) {
    |scheme| == |name| && forall i :: 0 <= i < |name| ==>
      scheme[i] == name[i] || scheme[i] as int + 32 == name[i] as int
  }

  ghost predicate WellWritten(w: Written) {
    && (forall i :: 0 <= i < |w.blanks| ==> w.blanks[i] as int <= 32)
    && (forall c :: c in w.netloc ==> c != '/' && c != '?' && c != '#' && c != '[' && c != ']')
    && (w.path == "" || w.path[0] == '/') && '?' !in w.path && '#' !in w.path
    && (w.query.Some? ==> '#' !in w.query.value)
  }

  lemma {:induction false} SkipBlanks(blanks: string, rest: string)
    requires forall i :: 0 <= i < |blanks| ==> blanks[i] as int <= 32
    requires rest != "" && rest[0] as int > 32
    ensures SkipSpaces(blanks + rest) == rest
  {
    if blanks == "" {
      assert blanks + rest == rest;
    } else {
      assert (blanks + rest)[1..] == blanks[1..] + rest;
      SkipBlanks(blanks[1..], rest);
    }
  }

  lemma {:induction false} SpelledScheme(scheme: string, name: string, rest: string)
    requires name in {"http", "https"} && Spells(scheme, name)
    ensures scheme != "" && scheme[0] as int > 32
    ensures CutScheme(scheme + [':'] + rest) == (name, rest)
  {
    forall i | 0 <= i < |name| ensures LowerChar(scheme[i]) == name[i] && IsLetter(scheme[i]) && scheme[i] != ':' {
      assert 'a' <= name[i] <= 'z';
    }
    assert LowerAscii(scheme) == name;
    AfterStop(scheme, ':', rest);
  }

  lemma {:induction false} CutWrittenTail(path: string, query: Option<string>, fragment: Option<string>)
    requires '?' !in path && '#' !in path && (query.Some? ==> '#' !in query.value)
    ensures CutTail(path + Marked('?', query) + Marked('#', fragment))
      == (path, if query.Some? then query.value else "")
  {
    var kept := path + Marked('?', query);
    var tail := kept + Marked('#', fragment);
    assert Free(kept, Is('#'));
    UptoStop(kept, Is('#'), Marked('#', fragment));
    if query.Some? {
      assert kept == path + ['?'] + query.value;
      AfterStop(path, '?', query.value);
    } else {
      assert kept == path;
      UptoFree(path, Is('?'));
    }
  }

  /** `urlsplit` finds the pieces that were written, the scheme in lower case. */
  lemma {:induction false} SplitWritten(env: Unicode, w: Written, name: string)
    requires WellWritten(w) && name in {"http", "https"} && Spells(w.scheme, name)
    requires IsAscii(w.netloc) || env.netlocOk(w.netloc)
    ensures SplitUrl(env, TextOf(w))
      == Ok(Parts(name, w.netloc, w.path, if w.query.Some? then w.query.value else ""))
  {
    var tail := TailOf(w);
    var rest := "//" + w.netloc + tail;
    SpelledScheme(w.scheme, name, rest);
    SkipBlanks(w.blanks, w.scheme + [':'] + rest);
    assert tail == "" || Delim(tail[0]);
    forall i | 0 <= i < |w.netloc| ensures !Delim(w.netloc[i]) && !Bracket(w.netloc[i]) {
      assert w.netloc[i] in w.netloc;
    }
    CutShownNetloc(w.netloc, tail);
    CutWrittenTail(w.path, w.query, w.fragment);
    Brackets(w.netloc);
  }

  // ---------------------------------------------------------- the authority

  /** A host of the name rules: no label of 64 characters or more, and none empty but the last. */
  ghost predicate NamesHost(host: string) {
    var labels := Split(host, '.');
    && (forall i :: 0 <= i < |labels| ==> |labels[i]| <= 63)
    && (forall i :: 0 <= i < |labels| - 1 ==> labels[i] != "")
  }

  /** Each capital letter by its small one. */
  ghost predicate InLower(lower: string, text: string) {
    |lower| == |text| && forall i :: 0 <= i < |text| ==>
      lower[i] as int == if 'A' <= text[i] <= 'Z' then text[i] as int + 32 else text[i] as int
  }

  /** A port of the URL, written or by the scheme. */
  ghost predicate PortIs(port: nat, text: string, scheme: string) {
    if text == "" then port == (if scheme == "http" then 80 else 443)
    else AllDigits(text) && port == NatValue(text) && 1 <= port <= 65535
  }

  lemma {:induction false} LowerOf(text: string)
    ensures InLower(LowerAscii(text), text)
  {
  }

  lemma {:induction false} LabelsName(host: string)
    ensures LabelsOk(host) <==> NamesHost(host)
  {
    var labels := Split(host, '.');
    if LabelsOk(host) {
      forall i | 0 <= i < |labels| ensures |labels[i]| <= 63 {
        assert i < |labels| - 1 ==> LabelOk(labels[i]);
      }
    }
    if NamesHost(host) {
      forall i | 0 <= i < |labels| - 1 ensures LabelOk(labels[i]) {
        assert labels[i] != "";
      }
    }
  }

  lemma {:induction false} HostnameLower(env: Unicode, host: string)
    requires IsAscii(host)
    ensures IsAscii(Hostname(env, host)) && LowerAscii(Hostname(env, host)) == LowerAscii(host)
    ensures |Hostname(env, host)| == |host|
  {
    AsciiStaysAscii(env, host);
    var n := |Upto(host, Is('%'))|;
    assert Upto(host, Is('%')) == host[..n] && IsAscii(host[..n]);
    var name := Hostname(env, host);
    forall i | 0 <= i < |host| ensures LowerChar(name[i]) == LowerChar(host[i]) {
      assert name[i] == if i < n then LowerChar(host[i]) else host[i];
    }
  }

  lemma {:induction false} WrittenHost(host: string, port: Option<string>)
    requires ':' !in host
    ensures RawHost(host + Marked(':', port)) == host
    ensures PortText(host + Marked(':', port)) == if port.Some? then port.value else ""
  {
    if port.Some? {
      assert host + Marked(':', port) == host + [':'] + port.value;
      AfterStop(host, ':', port.value);
    } else {
      assert host + Marked(':', port) == host;
      UptoFree(host, Is(':'));
    }
  }

  lemma {:induction false} HostVerdict(env: Unicode, p: Parts, host: string, text: string)
    requires p.scheme in {"http", "https"} && '@' !in p.netloc
    requires RawHost(p.netloc) == host && PortText(p.netloc) == text && IsAscii(host) && host != ""
    ensures !NamesHost(host) ==> OriginOf(env, p) == Err(HostInvalid)
    ensures NamesHost(host) && PortOf(text).Err? ==> OriginOf(env, p) == Err(PortInvalid)
    ensures NamesHost(host) && PortOf(text) == Ok(None) ==>
      OriginOf(env, p) == Ok(Origin(p.scheme, LowerAscii(host), DefaultPort(p.scheme)))
    ensures forall n: nat :: NamesHost(host) && PortOf(text) == Ok(Some(n)) ==>
      OriginOf(env, p) == if n < 1 then Err(PortInvalid) else Ok(Origin(p.scheme, LowerAscii(host), n))
  {
    HostnameLower(env, host);
    LowerLabels(Hostname(env, host));
    LowerLabels(host);
    LabelsName(host);
    OriginUnfold(env, p, Hostname(env, host));
  }

  /** The answer for an origin that can be read. */
  ghost predicate OriginIs(r: Result<Origin, UrlError>, scheme: string, host: string, text: string) {
    r.Ok? && r.value.scheme == scheme && InLower(r.value.host, host) && PortIs(r.value.port, text, scheme)
  }

  lemma {:induction false} HostAnswer(env: Unicode, p: Parts, host: string, text: string)
    requires p.scheme in {"http", "https"} && '@' !in p.netloc
    requires RawHost(p.netloc) == host && PortText(p.netloc) == text && IsAscii(host) && host != ""
    ensures var r := OriginOf(env, p);
      if !NamesHost(host) then r == Err(HostInvalid)
      else if exists n :: PortIs(n, text, p.scheme) then OriginIs(r, p.scheme, host, text)
      else r == Err(PortInvalid)
  {
    LowerOf(host);
    HostVerdict(env, p, host, text);
    PortVerdict(text, p.scheme);
  }

  lemma {:induction false} BareAnswers(env: Unicode, p: Parts)
    ensures p.scheme !in {"http", "https"} ==> OriginOf(env, p) == Err(SchemeForbidden)
    ensures p.scheme in {"http", "https"} && '@' in p.netloc ==> OriginOf(env, p) == Err(UserInfo)
    ensures p.scheme in {"http", "https"} && '@' !in p.netloc && RawHost(p.netloc) == "" ==>
      OriginOf(env, p) == Err(HostMissing)
  {
    if RawHost(p.netloc) == "" {
      HostnameLower(env, "");
    }
  }

  /** The verdict on scheme, user information, host and port of an ASCII network location, in this order. */
  lemma {:induction false} AuthorityVerdict(env: Unicode, p: Parts, host: string, port: Option<string>)
    requires p.netloc == host + Marked(':', port) && ':' !in host && IsAscii(p.netloc)
    ensures var r := OriginOf(env, p); var text := if port.Some? then port.value else "";
      if p.scheme !in {"http", "https"} then r == Err(SchemeForbidden)
      else if '@' in p.netloc then r == Err(UserInfo)
      else if host == "" then r == Err(HostMissing)
      else if !NamesHost(host) then r == Err(HostInvalid)
      else if exists n :: PortIs(n, text, p.scheme) then OriginIs(r, p.scheme, host, text)
      else r == Err(PortInvalid)
  {
    WrittenHost(host, port);
    BareAnswers(env, p);
    if p.scheme in {"http", "https"} && '@' !in p.netloc && host != "" {
      AsciiPart(host, Marked(':', port));
      HostAnswer(env, p, host, if port.Some? then port.value else "");
    }
  }

  lemma {:induction false} AsciiPart(host: string, rest: string)
    requires IsAscii(host + rest)
    ensures IsAscii(host)
  {
    forall i | 0 <= i < |host| ensures (host[i] as int) < 0x80 {
      assert host[i] == (host + rest)[i];
    }
  }

  lemma {:induction false} PortVerdict(text: string, scheme: string)
    requires scheme in {"http", "https"}
    ensures PortOf(text) == Ok(None) ==> PortIs(DefaultPort(scheme), text, scheme)
    ensures forall n: nat :: PortOf(text) == Ok(Some(n)) ==>
      (1 <= n <==> PortIs(n, text, scheme)) && forall m :: PortIs(m, text, scheme) ==> m == n
    ensures PortOf(text).Err? ==> forall n :: !PortIs(n, text, scheme)
  {
  }

  /** A wide host goes through the tables: lower-cased, then to its ASCII form, which is lower-cased again. */
  lemma {:induction false} WideVerdict(env: Unicode, p: Parts, host: string, port: Option<string>)
    requires p.scheme in {"http", "https"} && '@' !in p.netloc
    requires p.netloc == host + Marked(':', port) && ':' !in host && '%' !in host && !IsAscii(host)
    requires !IsAscii(env.lower(host))
    ensures var r, ascii := OriginOf(env, p), env.toAscii(env.lower(host));
      var text := if port.Some? then port.value else "";
      if ascii == None then r == Err(HostInvalid)
      else if exists n :: PortIs(n, text, p.scheme) then OriginIs(r, p.scheme, ascii.value, text)
      else r == Err(PortInvalid)
  {
    WrittenHost(host, port);
    WideName(env, host);
    var text := if port.Some? then port.value else "";
    PortVerdict(text, p.scheme);
    if env.toAscii(env.lower(host)).Some? {
      LowerOf(env.toAscii(env.lower(host)).value);
    }
    WideOriginOf(env, p, env.lower(host), text);
  }

  lemma {:induction false} WideName(env: Unicode, host: string)
    requires '%' !in host && !IsAscii(host)
    ensures Hostname(env, host) == env.lower(host)
  {
    UptoFree(host, Is('%'));
    assert env.lower(host) + host[|host|..] == env.lower(host);
  }

  lemma {:induction false} WideOriginOf(env: Unicode, p: Parts, name: string, text: string)
    requires p.scheme in {"http", "https"} && '@' !in p.netloc
    requires Hostname(env, RawHost(p.netloc)) == name && !IsAscii(name) && PortText(p.netloc) == text
    ensures env.toAscii(name) == None ==> OriginOf(env, p) == Err(HostInvalid)
    ensures env.toAscii(name).Some? && PortOf(text).Err? ==> OriginOf(env, p) == Err(PortInvalid)
    ensures env.toAscii(name).Some? && PortOf(text) == Ok(None) ==>
      OriginOf(env, p) == Ok(Origin(p.scheme, LowerAscii(env.toAscii(name).value), DefaultPort(p.scheme)))
    ensures forall n: nat :: env.toAscii(name).Some? && PortOf(text) == Ok(Some(n)) ==>
      OriginOf(env, p) ==
        if n < 1 then Err(PortInvalid) else Ok(Origin(p.scheme, LowerAscii(env.toAscii(name).value), n))
  {
  }

  // --------------------------------------------------------- the whole URL

  /** Nothing, more than 4096 characters, or a control character, and only these, make a URL invalid. */
  lemma {:induction false} InvalidUrls(env: Unicode, keep: Query.Pair -> bool, url: string)
    ensures Normal(env, keep, url) == Err(Invalid) <==>
      url == "" || |url| > 4096 || exists i :: 0 <= i < |url| && url[i] as int < 32
  {
    NormalUnfold(env, keep, url);
    if Acceptable(url) {
      assert forall i :: 0 <= i < |url| ==> Printable(url[i]);
      NoOtherInvalid(env, url);
    }
  }

  lemma {:induction false} NoOtherInvalid(env: Unicode, url: string)
    ensures SplitUrl(env, url) != Err(Invalid)
  {
  }

  /** A URL written out with an ASCII host that names one and a port in range. */
  ghost predicate Addressed(w: Written, name: string, host: string, port: Option<string>, n: nat) {
    && WellWritten(w) && name in {"http", "https"} && Spells(w.scheme, name)
    && w.netloc == host + Marked(':', port) && ':' !in host && '@' !in w.netloc && IsAscii(w.netloc)
    && host != "" && NamesHost(host) && PortIs(n, if port.Some? then port.value else "", name)
  }

  function QueryOf(w: Written): string {
    if w.query.Some? then w.query.value else ""
  }

  lemma {:induction false} WrittenOrigin(
    env: Unicode, w: Written, name: string, host: string, port: Option<string>, n: nat)
    requires Addressed(w, name, host, port, n)
    ensures var r := OriginOf(env, Parts(name, w.netloc, w.path, QueryOf(w)));
      r.Ok? && r.value.scheme == name && InLower(r.value.host, host) && r.value.port == n
  {
    AuthorityVerdict(env, Parts(name, w.netloc, w.path, QueryOf(w)), host, port);
  }

  function PortShown(name: string, n: nat): string {
    if n == (if name == "http" then 80 else 443) then "" else [':'] + NatText(n)
  }

  /** Every such URL is accepted: the normal form has the scheme and the host in lower case, the port
      unless it is the scheme's own, the normal path, and the kept parameters. */
  lemma {:induction false} WrittenNormal(
    env: Unicode, keep: Query.Pair -> bool, w: Written, name: string, host: string, port: Option<string>, n: nat)
    returns (lower: string)
    requires Addressed(w, name, host, port, n)
    requires |TextOf(w)| <= 4096 && forall i :: 0 <= i < |TextOf(w)| ==> TextOf(w)[i] as int >= 32
    ensures InLower(lower, host)
    ensures var query := Query.NormalQuery(QueryOf(w), keep);
      Normal(env, keep, TextOf(w)) == Ok(
        name + [':'] + "//" + (lower + PortShown(name, n)) + Paths.NormalPath(w.path)
        + if query == "" then "" else ['?'] + query)
  {
    var p := Parts(name, w.netloc, w.path, QueryOf(w));
    SplitWritten(env, w, name);
    WrittenOrigin(env, w, name, host, port, n);
    var o := OriginOf(env, p).value;
    lower := o.host;
    NormalUnfold(env, keep, TextOf(w));
    OriginShown(o, name, n);
  }

  lemma {:induction false} OriginShown(o: Origin, name: string, n: nat)
    requires o.scheme == name && o.port == n
    ensures Netloc(o) == o.host + PortShown(name, n)
  {
    assert o.host + "" == o.host;
  }
}
