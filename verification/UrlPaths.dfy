/**
  The path part of a normalised URL: `_normalize_path` over `posixpath.normpath`.
 */
module UrlPaths {
  import opened Pieces

  function Slash(c: char): char {
    if c == '\\' then '/' else c
  }

  /** `value.replace("\\", "/")`. */
  function Slashed(s: string): (r: string)
    ensures |r| == |s| && forall i :: 0 <= i < |s| ==> r[i] == Slash(s[i])
  {
    if s == [] then [] else [Slash(s[0])] + Slashed(s[1..])
  }

  /** The root `posixpath.splitroot` finds: nothing, one slash, or exactly two. */
  function Root(path: string): (r: string)
    ensures r <= path
  {
    if |path| == 0 || path[0] != '/' then ""
    else if |path| >= 2 && path[1] == '/' && !(|path| >= 3 && path[2] == '/') then path[..2]
    else path[..1]
  }

  /** One component of a path seen by `normpath` after the components kept so far. */
  function Keep(rooted: bool, kept: seq<string>, comp: string): seq<string> {
    if comp == "" || comp == "." then kept
    else if comp != ".." || (!rooted && kept == []) || (kept != [] && kept[|kept| - 1] == "..") then kept + [comp]
    else if kept != [] then kept[..|kept| - 1]
    else kept
  }

  function KeepAll(rooted: bool, kept: seq<string>, comps: seq<string>): seq<string>
    decreases |comps|
  {
    if comps == [] then kept else KeepAll(rooted, Keep(rooted, kept, comps[0]), comps[1..])
  }

  /** `posixpath.normpath`. */
  function NormPath(path: string): (r: string)
  {
    if path == "" then "."
    else
      var root := Root(path);
      var r := root + Join(KeepAll(root != "", [], Split(path[|root|..], '/')), '/');
      if r == "" then "." else r
  }

  /** The normal form of a URL path. */
  function NormalPath(value: string): string {
    if value == "" then "/" else Close(NormPath(Slashed(value)), Trailing(value))
  }

  predicate Trailing(value: string) {
    value != "" && value[|value| - 1] == '/'
  }

  function Close(n: string, trailing: bool): string {
    var absolute := if n != "" && n[0] == '/' then n else "/" + n;
    var single := if absolute == "//" then "/" else absolute;
    if trailing && single != "/" then single + "/" else single
  }

  /** `_normalize_path`, with the loop of `normpath` inside it. */
  method NormalizePath(value: string) returns (normalized: string)
    ensures normalized == NormalPath(value)
  {
    if value == "" {
      return "/";
    }
    var trailing := value[|value| - 1] == '/';
    normalized := NormalizeComponents(Slashed(value));
    if !(normalized != "" && normalized[0] == '/') {
      normalized := "/" + normalized;
    }
    if normalized == "//" {
      normalized := "/";
    }
    if trailing && normalized != "/" {
      normalized := normalized + "/";
    }
  }

  method NormalizeComponents(path: string) returns (r: string)
    ensures r == NormPath(path)
  {
    if path == "" {
      return ".";
    }
    var root := Root(path);
    var comps := Split(path[|root|..], '/');
    var kept := [];
    for i := 0 to |comps|
      invariant KeepAll(root != "", [], comps) == KeepAll(root != "", kept, comps[i..])
    {
      var comp := comps[i];
      if comp == "" || comp == "." {
        continue;
      }
      if comp != ".." || (root == "" && kept == []) || (kept != [] && kept[|kept| - 1] == "..") {
        kept := kept + [comp];
      } else if kept != [] {
        kept := kept[..|kept| - 1];
      }
    }
    r := root + Join(kept, '/');
    if r == "" {
      r := ".";
    }
  }

  // ------------------------------------------------------ what a path means

  /** The directory reached by following segments from `dir`; the root is its own parent. */
  function Walk(dir: seq<string>, segments: seq<string>): seq<string>
    decreases |segments|
  {
    if segments == [] then dir
    else if segments[0] == "" || segments[0] == "." then Walk(dir, segments[1..])
    else if segments[0] == ".." then Walk(if dir == [] then [] else dir[..|dir| - 1], segments[1..])
    else Walk(dir + [segments[0]], segments[1..])
  }

  /** Where a path leads from the root. */
  function Stops(path: string): seq<string> {
    Walk([], Split(Slashed(path), '/'))
  }

  /** A segment that names a child. */
  predicate Plain(segment: string) {
    segment != "" && segment != "." && segment != ".." && Free(segment, Is('/')) && Free(segment, Is('\\'))
  }

  predicate AllPlain(dir: seq<string>) {
    forall i :: 0 <= i < |dir| ==> Plain(dir[i])
  }

  predicate Absolute(path: string) {
    path != "" && (path[0] == '/' || path[0] == '\\')
  }

  predicate Clean(segments: seq<string>) {
    forall i :: 0 <= i < |segments| ==> Free(segments[i], Is('/')) && Free(segments[i], Is('\\'))
  }

  lemma {:induction false} WalkPlain(dir: seq<string>, segments: seq<string>)
    requires AllPlain(dir) && Clean(segments)
    ensures AllPlain(Walk(dir, segments))
    decreases |segments|
  {
    if segments == [] {
    } else if segments[0] == "" || segments[0] == "." {
      WalkPlain(dir, segments[1..]);
    } else if segments[0] == ".." {
      WalkPlain(if dir == [] then [] else dir[..|dir| - 1], segments[1..]);
    } else {
      WalkPlain(dir + [segments[0]], segments[1..]);
    }
  }

  /** Below a root, `normpath` keeps exactly the directory the path leads to. */
  lemma {:induction false} KeepIsWalk(dir: seq<string>, segments: seq<string>)
    requires AllPlain(dir) && Clean(segments)
    ensures KeepAll(true, dir, segments) == Walk(dir, segments)
    decreases |segments|
  {
    if segments != [] {
      var next := Keep(true, dir, segments[0]);
      assert AllPlain(next);
      KeepIsWalk(next, segments[1..]);
    }
  }

  lemma {:induction false} WalkChildren(dir: seq<string>, children: seq<string>)
    requires AllPlain(children)
    ensures Walk(dir, children) == dir + children
    ensures Walk(dir, children + [""]) == dir + children
    decreases |children|
  {
    if children == [] {
      assert Walk(dir, [""]) == Walk(dir, []);
    } else {
      WalkChildren(dir + [children[0]], children[1..]);
      assert dir + [children[0]] + children[1..] == dir + children;
      assert (children + [""])[1..] == children[1..] + [""];
    }
  }

  // --------------------------------------------------------------- the shape

  lemma {:induction false} SlashedFree(s: string)
    ensures Free(Slashed(s), Is('\\'))
    ensures Free(s, Is('\\')) ==> Slashed(s) == s
  {
  }

  lemma {:induction false} SegmentsClean(s: string)
    requires Free(s, Is('\\'))
    ensures Clean(Split(s, '/'))
  {
    var ok := (c: char) => c != '\\';
    SplitChars(s, '/', ok);
  }

  /** Leading slashes of an absolute path lead nowhere. */
  lemma {:induction false} RootIsNoStep(p: string)
    requires p != "" && p[0] == '/'
    ensures Root(p) == "/" || Root(p) == "//"
    ensures Walk([], Split(p, '/')) == Walk([], Split(p[|Root(p)|..], '/'))
  {
    LeadingSlash(p);
    if |Root(p)| == 2 {
      LeadingSlash(p[1..]);
      assert p[1..][1..] == p[2..];
      assert p[..2] == "//";
    }
  }

  lemma {:induction false} LeadingSlash(p: string)
    requires p != "" && p[0] == '/'
    ensures Split(p, '/') == [""] + Split(p[1..], '/')
    ensures Walk([], Split(p, '/')) == Walk([], Split(p[1..], '/'))
  {
    assert p == "" + ['/'] + p[1..];
    SplitConcat("", '/', p[1..]);
    UptoFree("", Is('/'));
    var rest := Split(p[1..], '/');
    assert ([""] + rest)[1..] == rest;
  }

  /** The root of an absolute path. */
  function Lead(value: string): string {
    Root(Slashed(value))
  }

  /** The text of a directory: its root, its segments and possibly a last slash. */
  function Show(lead: string, stops: seq<string>, trailing: bool): string {
    if stops == [] then "/" else lead + Join(stops, '/') + if trailing then "/" else ""
  }

  lemma {:induction false} JoinStart(stops: seq<string>)
    requires stops != [] && AllPlain(stops)
    ensures Join(stops, '/') != "" && Join(stops, '/')[0] == stops[0][0]
    ensures stops[0][0] != '/'
  {
    assert !Is('/')(stops[0][0]);
  }

  lemma {:induction false} NormPathRooted(p: string)
    requires p != "" && p[0] == '/' && Free(p, Is('\\'))
    ensures AllPlain(Walk([], Split(p, '/')))
    ensures NormPath(p) == Root(p) + Join(Walk([], Split(p, '/')), '/')
  {
    RootIsNoStep(p);
    var rest := p[|Root(p)|..];
    SegmentsClean(rest);
    KeepIsWalk([], Split(rest, '/'));
    WalkPlain([], Split(rest, '/'));
  }

  lemma {:induction false} Leads(p: string)
    requires p != "" && p[0] == '/'
    ensures Root(p) == "/" || Root(p) == "//"
  {
  }

  /** The last steps of `_normalize_path` on a rooted text. */
  lemma {:induction false} Finish(lead: string, stops: seq<string>, trailing: bool, n: string)
    requires lead == "/" || lead == "//"
    requires AllPlain(stops) && n == lead + Join(stops, '/')
    ensures Show(lead, stops, trailing) == Close(n, trailing)
  {
    if stops != [] {
      JoinStart(stops);
      assert n[|lead|] != '/';
    }
  }

  /** The normal form of an absolute path spells out where the path leads, and nothing else. */
  lemma {:induction false} NormalPathShows(value: string)
    requires Absolute(value)
    ensures AllPlain(Stops(value))
    ensures Lead(value) == "/" || Lead(value) == "//"
    ensures NormalPath(value) == Show(Lead(value), Stops(value), Trailing(value))
  {
    var p := Slashed(value);
    SlashedFree(value);
    NormPathRooted(p);
    Leads(p);
    Finish(Root(p), Stops(value), Trailing(value), NormPath(p));
  }

  lemma {:induction false} JoinEmptyLast(parts: seq<string>, c: char)
    requires parts != []
    ensures Join(parts + [""], c) == Join(parts, c) + [c]
  {
    if |parts| == 1 {
      assert (parts + [""])[1..] == [""];
    } else {
      JoinEmptyLast(parts[1..], c);
      assert (parts + [""])[1..] == parts[1..] + [""];
    }
  }

  /** The empty segments the root contributes. */
  function InFront(lead: string): seq<string> {
    if lead == "/" then [""] else ["", ""]
  }

  function Behind(stops: seq<string>, trailing: bool): seq<string> {
    if trailing then stops + [""] else stops
  }

  /** The segments of the shown text. */
  lemma {:induction false} ShowSegments(lead: string, stops: seq<string>, trailing: bool)
    requires AllPlain(stops) && stops != []
    requires lead == "/" || lead == "//"
    ensures Split(Show(lead, stops, trailing), '/') == InFront(lead) + Behind(stops, trailing)
  {
    var parts := Behind(stops, trailing);
    JoinEmptyLast(stops, '/');
    assert Show(lead, stops, trailing) == lead + Join(parts, '/');
    SplitJoin(parts, '/');
    SplitLead(lead, Join(parts, '/'));
  }

  lemma {:induction false} SplitLead(lead: string, body: string)
    requires lead == "/" || lead == "//"
    ensures Split(lead + body, '/') == InFront(lead) + Split(body, '/')
  {
    LeadingSlash("/" + body);
    assert ("/" + body)[1..] == body;
    if lead != "/" {
      LeadingSlash("//" + body);
      assert ("//" + body)[1..] == "/" + body;
    }
  }

  lemma {:induction false} FreeOfBackslash(parts: seq<string>)
    requires AllPlain(parts)
    ensures Free(Join(parts, '/'), Is('\\'))
  {
    var ok := (c: char) => c != '\\';
    forall i | 0 <= i < |parts| ensures All(parts[i], ok) {
      assert Free(parts[i], Is('\\'));
    }
    JoinChars(parts, '/', ok);
  }

  lemma {:induction false} ShowReads(lead: string, stops: seq<string>, trailing: bool)
    requires AllPlain(stops) && stops != []
    requires lead == "/" || lead == "//"
    ensures var r := Show(lead, stops, trailing);
      Absolute(r) && Stops(r) == stops && Lead(r) == lead && Trailing(r) == trailing
  {
    var r := Show(lead, stops, trailing);
    ShowFree(lead, stops, trailing);
    SlashedFree(r);
    ShowSegments(lead, stops, trailing);
    ReadSegments(lead, stops, trailing);
    ShowRoot(lead, stops, trailing);
    ShowEnd(lead, stops, trailing);
  }

  lemma {:induction false} ShowFree(lead: string, stops: seq<string>, trailing: bool)
    requires AllPlain(stops) && (lead == "/" || lead == "//")
    ensures Free(Show(lead, stops, trailing), Is('\\'))
  {
    FreeOfBackslash(stops);
  }

  lemma {:induction false} ShowRoot(lead: string, stops: seq<string>, trailing: bool)
    requires AllPlain(stops) && stops != [] && (lead == "/" || lead == "//")
    ensures Root(Show(lead, stops, trailing)) == lead
    ensures Absolute(Show(lead, stops, trailing))
  {
    var r := Show(lead, stops, trailing);
    JoinStart(stops);
    assert r[|lead|] == stops[0][0];
    assert r[..|lead|] == lead;
  }

  lemma {:induction false} ShowEnd(lead: string, stops: seq<string>, trailing: bool)
    requires AllPlain(stops) && stops != []
    ensures Trailing(Show(lead, stops, trailing)) == trailing
  {
    var r := Show(lead, stops, trailing);
    if !trailing {
      LastChar(stops);
      assert r[|r| - 1] == Join(stops, '/')[|Join(stops, '/')| - 1];
    }
  }

  lemma {:induction false} ReadSegments(lead: string, stops: seq<string>, trailing: bool)
    requires AllPlain(stops)
    ensures Walk([], InFront(lead) + Behind(stops, trailing)) == stops
  {
    var tail := Behind(stops, trailing);
    WalkChildren([], stops);
    SkipEmpty(tail);
    SkipEmpty([""] + tail);
    assert ["", ""] + tail == [""] + ([""] + tail);
  }

  lemma {:induction false} SkipEmpty(segments: seq<string>)
    ensures Walk([], [""] + segments) == Walk([], segments)
  {
    assert ([""] + segments)[1..] == segments;
  }

  lemma {:induction false} LastChar(stops: seq<string>)
    requires AllPlain(stops) && stops != []
    ensures Join(stops, '/') != "" && Join(stops, '/')[|Join(stops, '/')| - 1] != '/'
  {
    if |stops| == 1 {
      assert Plain(stops[0]) && !Is('/')(stops[0][|stops[0]| - 1]);
    } else {
      LastChar(stops[1..]);
    }
  }

  // ----------------------------------------------------------- main results

  /** The normal form leads to the same place as the path it came from. */
  lemma {:induction false} NormalPathLeadsToTheSamePlace(value: string)
    requires Absolute(value)
    ensures Absolute(NormalPath(value))
    ensures Stops(NormalPath(value)) == Stops(value)
  {
    NormalPathShows(value);
    RootOnly();
    if Stops(value) != [] {
      ShowReads(Lead(value), Stops(value), Trailing(value));
    }
  }

  lemma {:induction false} RootOnly()
    ensures Stops("/") == [] && NormalPath("/") == "/"
    ensures Split("/", '/') == ["", ""]
  {
    LeadingSlash("/");
    assert Slashed("/") == "/";
    assert Split("", '/') == [""];
    assert Walk([], [""]) == Walk([], []);
    NormalPathShows("/");
  }

  /** Normalising twice changes nothing more. */
  lemma {:induction false} NormalPathIdempotent(value: string)
    requires value == "" || Absolute(value)
    ensures NormalPath(NormalPath(value)) == NormalPath(value)
  {
    RootOnly();
    if value != "" {
      NormalPathShows(value);
      if Stops(value) != [] {
        var r := NormalPath(value);
        ShowReads(Lead(value), Stops(value), Trailing(value));
        NormalPathShows(r);
      }
    }
  }

  /** The segments of a normal form: one or two empty ones in front, names, and an empty one
      behind exactly when the path ended in a slash. */
  lemma {:induction false} NormalPathSegments(value: string)
    requires Absolute(value)
    ensures AllPlain(Stops(value))
    ensures Stops(value) == [] ==> NormalPath(value) == "/"
    ensures Lead(value) == "/" || Lead(value) == "//"
    ensures Stops(value) != [] ==>
      Split(NormalPath(value), '/') == InFront(Lead(value)) + Behind(Stops(value), Trailing(value))
    ensures Trailing(value) ==> Trailing(NormalPath(value))
    ensures Trailing(NormalPath(value)) ==> Trailing(value) || Stops(value) == []
  {
    NormalPathShows(value);
    if Stops(value) != [] {
      ShowSegments(Lead(value), Stops(value), Trailing(value));
      ShowReads(Lead(value), Stops(value), Trailing(value));
    }
  }

  // -------------------------------------------------- paths without a root

  /** What `normpath` leaves of a path that has no root. */
  function Relative(value: string): seq<string> {
    var kept := KeepAll(false, [], Split(Slashed(value), '/'));
    if kept == [] then ["."] else kept
  }

  /** Parents first, then names. */
  ghost predicate Climbing(kept: seq<string>) {
    && (forall i :: 0 <= i < |kept| ==> kept[i] == ".." || Plain(kept[i]))
    && (forall i, j :: 0 <= i < j < |kept| && kept[j] == ".." ==> kept[i] == "..")
  }

  lemma {:induction false} KeepClimbing(kept: seq<string>, comp: string)
    requires Climbing(kept) && Free(comp, Is('/')) && Free(comp, Is('\\'))
    ensures Climbing(Keep(false, kept, comp))
  {
  }

  lemma {:induction false} KeepAllClimbing(kept: seq<string>, comps: seq<string>)
    requires Climbing(kept) && Clean(comps)
    ensures Climbing(KeepAll(false, kept, comps))
    decreases |comps|
  {
    if comps != [] {
      KeepClimbing(kept, comps[0]);
      KeepAllClimbing(Keep(false, kept, comps[0]), comps[1..]);
    }
  }

  lemma {:induction false} RelativeKept(value: string)
    ensures Climbing(KeepAll(false, [], Split(Slashed(value), '/')))
  {
    SlashedFree(value);
    SegmentsClean(Slashed(value));
    KeepAllClimbing([], Split(Slashed(value), '/'));
  }

  lemma {:induction false} NormPathRootless(p: string)
    requires p != "" && p[0] != '/'
    ensures var r := Join(KeepAll(false, [], Split(p, '/')), '/'); NormPath(p) == if r == "" then "." else r
  {
    assert p[0..] == p;
    assert "" + Join(KeepAll(false, [], Split(p, '/')), '/') == Join(KeepAll(false, [], Split(p, '/')), '/');
  }

  lemma {:induction false} JoinedSomething(kept: seq<string>)
    requires kept != [] && kept[0] != ""
    ensures Join(kept, '/') != ""
  {
  }

  lemma {:induction false} ClimbingFree(kept: seq<string>)
    requires Climbing(kept)
    ensures forall i :: 0 <= i < |kept| ==> kept[i] != "" && Free(kept[i], Is('/'))
  {
  }

  lemma {:induction false} RelativeShape(value: string)
    requires value != "" && !Absolute(value)
    ensures var kept := Relative(value);
      kept != [] && (kept == ["."] || Climbing(kept)) && NormPath(Slashed(value)) == Join(kept, '/')
    ensures forall i :: 0 <= i < |Relative(value)| ==> Relative(value)[i] != "" && Free(Relative(value)[i], Is('/'))
  {
    var kept := KeepAll(false, [], Split(Slashed(value), '/'));
    RelativeKept(value);
    NormPathRootless(Slashed(value));
    OrDot(kept, Relative(value));
  }

  lemma {:induction false} OrDot(kept: seq<string>, shown: seq<string>)
    requires Climbing(kept) && shown == if kept == [] then ["."] else kept
    ensures shown == ["."] || Climbing(shown)
    ensures Join(shown, '/') == if Join(kept, '/') == "" then "." else Join(kept, '/')
    ensures forall i :: 0 <= i < |shown| ==> shown[i] != "" && Free(shown[i], Is('/'))
  {
    if kept != [] {
      ClimbingFree(kept);
      JoinedSomething(kept);
    }
  }

  lemma {:induction false} CloseRelative(kept: seq<string>, trailing: bool)
    requires kept != [] && forall i :: 0 <= i < |kept| ==> kept[i] != "" && Free(kept[i], Is('/'))
    ensures Close(Join(kept, '/'), trailing) == "/" + Join(Behind(kept, trailing), '/')
    ensures Split(Close(Join(kept, '/'), trailing), '/') == [""] + Behind(kept, trailing)
  {
    var n := Join(kept, '/');
    assert n[0] == kept[0][0] && !Is('/')(kept[0][0]);
    assert ("/" + n)[1] == n[0] && "/" + n != "//" && "/" + n != "/";
    JoinEmptyLast(kept, '/');
    SplitJoin(Behind(kept, trailing), '/');
    SplitLead("/", Join(Behind(kept, trailing), '/'));
  }

  /** A stable path has a name or nothing as its second segment. */
  lemma {:induction false} StableSecond(r: string)
    requires Absolute(r) && NormalPath(r) == r
    ensures |Split(r, '/')| >= 2 && (Split(r, '/')[1] == "" || Plain(Split(r, '/')[1]))
  {
    NormalPathSegments(r);
    RootOnly();
  }

  lemma {:induction false} NamesAreStable(kept: seq<string>, trailing: bool, r: string)
    requires kept != [] && AllPlain(kept)
    requires r == "/" + Join(Behind(kept, trailing), '/')
    ensures NormalPath(r) == r
  {
    JoinEmptyLast(kept, '/');
    assert r == Show("/", kept, trailing);
    ShowReads("/", kept, trailing);
    NormalPathShows(r);
  }

  lemma {:induction false} DotsAreNotStable(kept: seq<string>, trailing: bool, r: string)
    requires kept != [] && (kept[0] == "." || kept[0] == "..")
    requires r == "/" + Join(Behind(kept, trailing), '/')
    requires Split(r, '/') == [""] + Behind(kept, trailing)
    ensures NormalPath(r) != r
  {
    if NormalPath(r) == r {
      StableSecond(r);
      assert false;
    }
  }

  lemma {:induction false} ClimbingFromName(kept: seq<string>)
    requires kept != [] && Climbing(kept) && kept[0] != ".."
    ensures AllPlain(kept)
  {
  }

  /** Without a root, the normal form is stable exactly when the path leads down into a name;
      "a/.." becomes "/." and only then "/". */
  lemma {:induction false} RelativePathStable(value: string)
    requires value != "" && !Absolute(value)
    ensures NormalPath(NormalPath(value)) == NormalPath(value)
      <==> Relative(value)[0] != "." && Relative(value)[0] != ".."
  {
    RelativeShape(value);
    var kept := Relative(value);
    var trailing := Trailing(value);
    var r := Close(Join(kept, '/'), trailing);
    assert NormalPath(value) == r;
    CloseRelative(kept, trailing);
    if kept[0] == "." || kept[0] == ".." {
      DotsAreNotStable(kept, trailing, r);
    } else {
      ClimbingFromName(kept);
      NamesAreStable(kept, trailing, r);
    }
  }

  /** An instance of the unstable family. */
  lemma {:induction false} RelativePathUnstable(value: string)
    requires value == "a/.."
    ensures NormalPath(value) == "/." && NormalPath(NormalPath(value)) != NormalPath(value)
  {
    UpAndBack(value);
    RelativePathStable(value);
  }

  lemma {:induction false} UpAndBack(p: string)
    requires p == "a/.."
    ensures Relative(p) == ["."] && NormalPath(p) == "/."
  {
    assert Slashed(p) == p;
    assert p == "a" + ['/'] + "..";
    SplitConcat("a", '/', "..");
    UptoFree("a", Is('/'));
    UptoFree("..", Is('/'));
    assert Split(p, '/') == ["a", ".."];
    assert KeepAll(false, [], ["a", ".."]) == KeepAll(false, ["a"], [".."]);
    assert KeepAll(false, ["a"], [".."]) == KeepAll(false, [], []);
    RelativeShape(p);
    CloseDot();
  }

  lemma {:induction false} CloseDot()
    ensures Close(Join(["."], '/'), false) == "/."
  {
    assert Join(["."], '/') == ".";
    assert "/" + "." == "/.";
  }

  // ---------------------------------------------------------- its characters

  /** Normalising brings in no character but the slash. */
  lemma {:induction false} NormalPathChars(value: string, ok: char -> bool)
    requires value == "" || Absolute(value)
    requires All(value, ok) && ok('/')
    ensures All(NormalPath(value), ok)
  {
    if value != "" {
      NormalPathShows(value);
      var p := Slashed(value);
      SplitChars(p, '/', ok);
      WalkChars([], Split(p, '/'), ok);
      ShowChars(Lead(value), Stops(value), Trailing(value), ok);
    }
  }

  lemma {:induction false} ShowChars(lead: string, stops: seq<string>, trailing: bool, ok: char -> bool)
    requires ok('/') && (lead == "/" || lead == "//")
    requires forall i :: 0 <= i < |stops| ==> All(stops[i], ok)
    ensures All(Show(lead, stops, trailing), ok)
  {
    JoinChars(stops, '/', ok);
  }

  lemma {:induction false} WalkChars(dir: seq<string>, segments: seq<string>, ok: char -> bool)
    requires forall i :: 0 <= i < |dir| ==> All(dir[i], ok)
    requires forall i :: 0 <= i < |segments| ==> All(segments[i], ok)
    ensures forall i :: 0 <= i < |Walk(dir, segments)| ==> All(Walk(dir, segments)[i], ok)
    decreases |segments|
  {
    if segments == [] {
    } else if segments[0] == "" || segments[0] == "." {
      WalkChars(dir, segments[1..], ok);
    } else if segments[0] == ".." {
      WalkChars(if dir == [] then [] else dir[..|dir| - 1], segments[1..], ok);
    } else {
      WalkChars(dir + [segments[0]], segments[1..], ok);
    }
  }
}
