/**
  The runtime dependency closure of a lock file and the policies checked against it
  (tools/architecture_checks/check_dependencies.py).
 */
module DependencyClosure {
  import opened Text

  type Graph = map<string, set<string>>

  /** `graph.get(name, ())`. */
  function Deps(graph: Graph, name: string): set<string> {
    if name in graph then graph[name] else {}
  }

  // ------------------------------------------------------------ reachability

  /** A chain of direct dependencies. */
  ghost predicate Path(graph: Graph, path: seq<string>) {
    path != [] && forall i :: 0 <= i < |path| - 1 ==> path[i + 1] in Deps(graph, path[i])
  }

  ghost predicate PathBetween(graph: Graph, path: seq<string>, from: string, to: string) {
    Path(graph, path) && path[0] == from && path[|path| - 1] == to
  }

  ghost predicate Reachable(graph: Graph, from: string, to: string) {
    exists path :: PathBetween(graph, path, from, to)
  }

  lemma {:induction false} ReachSelf(graph: Graph, a: string)
    ensures Reachable(graph, a, a)
  {
    assert PathBetween(graph, [a], a, a);
  }

  lemma {:induction false} ReachStep(graph: Graph, a: string, b: string, c: string)
    requires Reachable(graph, a, b) && c in Deps(graph, b)
    ensures Reachable(graph, a, c)
  {
    var path :| PathBetween(graph, path, a, b);
    var longer := path + [c];
    forall i | 0 <= i < |longer| - 1 ensures longer[i + 1] in Deps(graph, longer[i]) {
      assert longer[i] == path[i];
    }
    assert PathBetween(graph, longer, a, c);
  }

  ghost predicate Closed(graph: Graph, names: set<string>) {
    forall v, d :: v in names && d in Deps(graph, v) ==> d in names
  }

  /** A closed set that holds the start of a path holds its end. */
  lemma {:induction false} PathStaysInside(graph: Graph, names: set<string>, path: seq<string>)
    requires Path(graph, path) && Closed(graph, names) && path[0] in names
    ensures path[|path| - 1] in names
    decreases |path|
  {
    if |path| > 1 {
      assert path[1] in Deps(graph, path[0]);
      var rest := path[1..];
      forall i | 0 <= i < |rest| - 1 ensures rest[i + 1] in Deps(graph, rest[i]) {
        assert path[i + 2] in Deps(graph, path[i + 1]);
      }
      PathStaysInside(graph, names, rest);
    }
  }

  /** The set the worklist computes: closed, holding the root, and nothing unreachable. */
  lemma {:induction false} ClosureIsReach(graph: Graph, root: string, names: set<string>)
    requires root in names && Closed(graph, names)
    requires forall x :: x in names ==> Reachable(graph, root, x)
    ensures forall x :: x in names <==> Reachable(graph, root, x)
  {
    forall x | Reachable(graph, root, x) ensures x in names {
      var path :| PathBetween(graph, path, root, x);
      PathStaysInside(graph, names, path);
    }
  }

  // --------------------------------------------------------------- worklist

  function Names(s: seq<string>): set<string> {
    set x | x in s
  }

  /** Every name the search can meet. */
  ghost function Universe(graph: Graph, root: string): set<string> {
    {root} + (set n, d | n in graph && d in graph[n] :: d)
  }

  lemma {:induction false} NamesPush(s: seq<string>, x: string)
    ensures Names(s + [x]) == Names(s) + {x}
  {
  }

  lemma {:induction false} NamesPop(s: seq<string>)
    requires s != []
    ensures Names(s) == Names(s[..|s| - 1]) + {s[|s| - 1]}
  {
    NamesPush(s[..|s| - 1], s[|s| - 1]);
    assert s == s[..|s| - 1] + [s[|s| - 1]];
  }

  /** `pending.extend(dependencies)`: a set is walked in some order. */
  method Extend(pending: seq<string>, dependencies: set<string>) returns (r: seq<string>)
    ensures Names(r) == Names(pending) + dependencies
  {
    r := pending;
    var rest := dependencies;
    while rest != {}
      invariant rest <= dependencies
      invariant Names(r) == Names(pending) + (dependencies - rest)
      decreases |rest|
    {
      var d :| d in rest;
      NamesPush(r, d);
      r := r + [d];
      rest := rest - {d};
    }
  }

  /** The search so far: names visited, names still waiting. */
  ghost predicate Frontier(graph: Graph, root: string, visited: set<string>, waiting: set<string>) {
    && root in visited + waiting
    && visited + waiting <= Universe(graph, root)
    && (forall x :: x in visited + waiting ==> Reachable(graph, root, x))
    && (forall v, d :: v in visited && d in Deps(graph, v) ==> d in visited + waiting)
  }

  lemma {:induction false} FrontierStarts(graph: Graph, root: string)
    ensures Frontier(graph, root, {}, {root})
  {
    ReachSelf(graph, root);
  }

  lemma {:induction false} FrontierVisits(
    graph: Graph, root: string, visited: set<string>, waiting: set<string>, x: string)
    requires Frontier(graph, root, visited, waiting + {x})
    ensures Frontier(graph, root, visited + {x}, waiting + Deps(graph, x))
  {
    assert x in visited + (waiting + {x});
    forall d | d in Deps(graph, x) ensures Reachable(graph, root, d) && d in Universe(graph, root) {
      ReachStep(graph, root, x, d);
    }
    var visited', waiting' := visited + {x}, waiting + Deps(graph, x);
    forall v, d | v in visited' && d in Deps(graph, v) ensures d in visited' + waiting' {
      if v in visited {
        assert d in visited + (waiting + {x});
      }
    }
  }

  lemma {:induction false} FrontierEnds(graph: Graph, root: string, visited: set<string>)
    requires Frontier(graph, root, visited, {})
    ensures forall x :: x in visited <==> Reachable(graph, root, x)
  {
    ClosureIsReach(graph, root, visited);
  }

  lemma {:induction false} Shrinks(universe: set<string>, visited: set<string>, x: string)
    requires x in universe && x !in visited
    ensures |universe - (visited + {x})| < |universe - visited|
  {
    var left := universe - visited;
    assert universe - (visited + {x}) == left - {x};
  }

  /** `_dependency_closure`: exactly the reachable names, on every graph. */
  method Closure(graph: Graph, root: string) returns (visited: set<string>)
    ensures forall x :: x in visited <==> Reachable(graph, root, x)
  {
    var pending := [root];
    visited := {};
    FrontierStarts(graph, root);
    assert Names(pending) == {root};
    while pending != []
      invariant Frontier(graph, root, visited, Names(pending))
      decreases |Universe(graph, root) - visited|, |pending|
    {
      var current := pending[|pending| - 1];
      NamesPop(pending);
      pending := pending[..|pending| - 1];
      if current in visited {
        assert visited + (Names(pending) + {current}) == visited + Names(pending);
        continue;
      }
      FrontierVisits(graph, root, visited, Names(pending), current);
      Shrinks(Universe(graph, root), visited, current);
      visited := visited + {current};
      pending := Extend(pending, Deps(graph, current));
    }
    assert Names(pending) == {};
    FrontierEnds(graph, root, visited);
  }

  // --------------------------------------------------------- the lock file

  /** A package entry of the lock file; a dependency without a name is `None`. */
  datatype Entry =
    | Malformed
    | Package(name: string, dependencies: DependencyField)

  datatype DependencyField =
    | NotAList
    | Listed(names: seq<Option<string>>)

  datatype Violation =
    | EntryInvalid
    | Duplicate(name: string)
    | DependenciesNotList(name: string)
    | DependencyInvalid(name: string)
    | Missing(root: string, names: seq<string>)
    | Forbidden(root: string, names: seq<string>)

  predicate WellFormed(e: Entry) {
    e.Package? && e.dependencies.Listed? && None !in e.dependencies.names
  }

  function Normalized(names: seq<Option<string>>, norm: string -> string): set<string> {
    set n | n in names && n.Some? :: norm(n.value)
  }

  /** What one entry adds to the graph and to the violations. */
  function ReadEntry(graph: Graph, e: Entry, norm: string -> string): (Graph, seq<Violation>) {
    if e.Malformed? then (graph, [EntryInvalid])
    else
      var name := norm(e.name);
      if name in graph then (graph, [Duplicate(name)])
      else if e.dependencies.NotAList? then (graph, [DependenciesNotList(name)])
      else if None in e.dependencies.names then (graph, [DependencyInvalid(name)])
      else (graph[name := Normalized(e.dependencies.names, norm)], [])
  }

  function ReadLock(entries: seq<Entry>, norm: string -> string): (Graph, seq<Violation>) {
    if entries == [] then (map[], [])
    else
      var (graph, violations) := ReadLock(entries[..|entries| - 1], norm);
      var (graph', more) := ReadEntry(graph, entries[|entries| - 1], norm);
      (graph', violations + more)
  }

  lemma {:induction false} ReadLockStep(init: seq<Entry>, e: Entry, norm: string -> string)
    ensures var (graph, violations) := ReadLock(init, norm); var (graph', more) := ReadEntry(graph, e, norm);
      ReadLock(init + [e], norm) == (graph', violations + more)
  {
    var all := init + [e];
    assert all[..|all| - 1] == init;
  }

  method BuildGraph(entries: seq<Entry>, norm: string -> string) returns (graph: Graph, violations: seq<Violation>)
    ensures (graph, violations) == ReadLock(entries, norm)
  {
    graph, violations := map[], [];
    for i := 0 to |entries|
      invariant (graph, violations) == ReadLock(entries[..i], norm)
    {
      var e := entries[i];
      ghost var (graph', more) := ReadEntry(graph, e, norm);
      assert ReadLock(entries[..i + 1], norm) == (graph', violations + more) by {
        ReadLockStep(entries[..i], e, norm);
        assert entries[..i + 1] == entries[..i] + [e];
      }
      if e.Malformed? {
        violations := violations + [EntryInvalid];
        continue;
      }
      var name := norm(e.name);
      if name in graph {
        violations := violations + [Duplicate(name)];
        continue;
      }
      if e.dependencies.NotAList? {
        violations := violations + [DependenciesNotList(name)];
        continue;
      }
      var names, invalid := CollectNames(e.dependencies.names, norm);
      if invalid {
        violations := violations + [DependencyInvalid(name)];
      } else {
        graph := graph[name := names];
        assert violations + more == violations;
      }
    }
    assert entries[..|entries|] == entries;
  }

  method CollectNames(
    dependencies: seq<Option<string>>, norm: string -> string) returns (names: set<string>, invalid: bool)
    ensures invalid <==> None in dependencies
    ensures !invalid ==> names == Normalized(dependencies, norm)
  {
    names, invalid := {}, false;
    for i := 0 to |dependencies|
      invariant !invalid && None !in dependencies[..i]
      invariant names == Normalized(dependencies[..i], norm)
    {
      assert dependencies[..i + 1] == dependencies[..i] + [dependencies[i]];
      if dependencies[i].None? {
        return names, true;
      }
      names := names + {norm(dependencies[i].value)};
    }
    assert dependencies[..|dependencies|] == dependencies;
  }

  /** Two entries that name the same distribution. */
  ghost predicate NamesDiffer(entries: seq<Entry>, norm: string -> string) {
    forall i, j :: 0 <= i < j < |entries| && entries[i].Package? && entries[j].Package? ==>
      norm(entries[i].name) != norm(entries[j].name)
  }

  ghost predicate AllWellFormed(entries: seq<Entry>) {
    forall i :: 0 <= i < |entries| ==> WellFormed(entries[i])
  }

  /** The graph of a clean lock file, read off its entries. */
  ghost predicate Depicts(graph: Graph, entries: seq<Entry>, norm: string -> string) {
    Covers(graph, entries, norm) && Explained(graph, entries, norm)
  }

  ghost predicate Covers(graph: Graph, entries: seq<Entry>, norm: string -> string) {
    forall i :: 0 <= i < |entries| && WellFormed(entries[i]) ==>
      norm(entries[i].name) in graph && graph[norm(entries[i].name)] == Normalized(entries[i].dependencies.names, norm)
  }

  ghost predicate Explained(graph: Graph, entries: seq<Entry>, norm: string -> string) {
    forall n :: n in graph ==> NamedIn(entries, n, norm)
  }

  ghost predicate NamedIn(entries: seq<Entry>, n: string, norm: string -> string) {
    exists i :: 0 <= i < |entries| && Named(entries[i], n, norm)
  }

  predicate Named(e: Entry, n: string, norm: string -> string) {
    e.Package? && norm(e.name) == n
  }

  /** The lock file is accepted without a word exactly when every entry is well formed and no two
      name the same distribution; the graph then holds each entry's dependencies and nothing else. */
  lemma {:induction false} CleanLock(entries: seq<Entry>, norm: string -> string)
    ensures ReadLock(entries, norm).1 == [] <==> AllWellFormed(entries) && NamesDiffer(entries, norm)
    ensures ReadLock(entries, norm).1 == [] ==> Depicts(ReadLock(entries, norm).0, entries, norm)
  {
    if entries != [] {
      var n := |entries| - 1;
      var init := entries[..n];
      CleanLock(init, norm);
      assert entries == init + [entries[n]];
      if ReadLock(init, norm).1 == [] {
        CleanEntry(init, entries[n], ReadLock(init, norm).0, norm);
      }
    }
  }

  lemma {:induction false} CleanEntry(init: seq<Entry>, e: Entry, graph: Graph, norm: string -> string)
    requires AllWellFormed(init) && NamesDiffer(init, norm) && Depicts(graph, init, norm)
    ensures ReadEntry(graph, e, norm).1 == [] <==> AllWellFormed(init + [e]) && NamesDiffer(init + [e], norm)
    ensures ReadEntry(graph, e, norm).1 == [] ==> Depicts(ReadEntry(graph, e, norm).0, init + [e], norm)
  {
    AppendWellFormed(init, e);
    if WellFormed(e) {
      if norm(e.name) in graph {
        Repeated(init, e, norm);
      } else {
        NewName(init, e, graph, norm);
        NewEntry(init, e, graph, norm);
      }
    }
  }

  lemma {:induction false} AppendWellFormed(init: seq<Entry>, e: Entry)
    requires AllWellFormed(init)
    ensures AllWellFormed(init + [e]) <==> WellFormed(e)
  {
    assert (init + [e])[|init|] == e;
  }

  lemma {:induction false} Repeated(init: seq<Entry>, e: Entry, norm: string -> string)
    requires e.Package? && NamedIn(init, norm(e.name), norm)
    ensures !NamesDiffer(init + [e], norm)
  {
    var all := init + [e];
    var i :| 0 <= i < |init| && Named(init[i], norm(e.name), norm);
    assert all[i] == init[i] && all[|init|] == e;
  }

  lemma {:induction false} NewName(init: seq<Entry>, e: Entry, graph: Graph, norm: string -> string)
    requires AllWellFormed(init) && NamesDiffer(init, norm) && Covers(graph, init, norm)
    requires e.Package? && norm(e.name) !in graph
    ensures NamesDiffer(init + [e], norm)
  {
    var all := init + [e];
    forall i, j | 0 <= i < j < |all| && all[i].Package? && all[j].Package?
      ensures norm(all[i].name) != norm(all[j].name)
    {
      assert all[i] == init[i] && WellFormed(init[i]);
      if j < |init| {
        assert all[j] == init[j];
      }
    }
  }

  lemma {:induction false} NewEntry(init: seq<Entry>, e: Entry, graph: Graph, norm: string -> string)
    requires Depicts(graph, init, norm) && WellFormed(e) && norm(e.name) !in graph
    ensures Depicts(graph[norm(e.name) := Normalized(e.dependencies.names, norm)], init + [e], norm)
  {
    var all := init + [e];
    var after := graph[norm(e.name) := Normalized(e.dependencies.names, norm)];
    assert Covers(after, all, norm);
    forall n | n in after ensures NamedIn(all, n, norm) {
      if n in graph {
        var i :| 0 <= i < |init| && Named(init[i], n, norm);
        assert Named(all[i], n, norm);
      } else {
        assert Named(all[|init|], n, norm);
      }
    }
  }

  // ------------------------------------------------- any lock file, entry by entry

  /** The entry counts: it is well formed, and no entry that counts has its name before it. */
  ghost predicate Accepted(entries: seq<Entry>, i: nat, norm: string -> string)
    decreases i, 1
  {
    i < |entries| && WellFormed(entries[i]) && !Taken(entries, i, norm(entries[i].name), norm)
  }

  /** The name of an entry that counts, among the first `n`. */
  ghost predicate Taken(entries: seq<Entry>, n: nat, name: string, norm: string -> string)
    decreases n, 0
  {
    exists j: nat :: j < n && Accepted(entries, j, norm) && norm(entries[j].name) == name
  }

  /** What is said of an entry. */
  ghost function Complaint(entries: seq<Entry>, i: nat, norm: string -> string): seq<Violation>
    requires i < |entries|
  {
    match entries[i]
    case Malformed => [EntryInvalid]
    case Package(name, dependencies) =>
      if Taken(entries, i, norm(name), norm) then [Duplicate(norm(name))]
      else
        match dependencies
        case NotAList => [DependenciesNotList(norm(name))]
        case Listed(names) => if None in names then [DependencyInvalid(norm(name))] else []
  }

  ghost function Complaints(entries: seq<Entry>, n: nat, norm: string -> string): seq<Violation>
    requires n <= |entries|
  {
    if n == 0 then [] else Complaints(entries, n - 1, norm) + Complaint(entries, n - 1, norm)
  }

  /** The graph of the first `n` entries: the names that count, each with its own dependencies. */
  ghost predicate GraphOf(graph: Graph, entries: seq<Entry>, n: nat, norm: string -> string) {
    && n <= |entries|
    && (forall name :: name in graph <==> Taken(entries, n, name, norm))
    && forall i: nat :: i < n && Accepted(entries, i, norm) ==>
         && norm(entries[i].name) in graph
         && graph[norm(entries[i].name)] == Normalized(entries[i].dependencies.names, norm)
  }

  /** Of any lock file: every entry is judged by itself and the entries before it, in order. */
  lemma {:induction false} LockSays(entries: seq<Entry>, n: nat, norm: string -> string)
    requires n <= |entries|
    ensures GraphOf(ReadLock(entries[..n], norm).0, entries, n, norm)
    ensures ReadLock(entries[..n], norm).1 == Complaints(entries, n, norm)
  {
    if n > 0 {
      LockSays(entries, n - 1, norm);
      ReadLockStep(entries[..n - 1], entries[n - 1], norm);
      assert entries[..n] == entries[..n - 1] + [entries[n - 1]];
      EntrySays(entries, n - 1, ReadLock(entries[..n - 1], norm).0, norm);
    }
  }

  lemma {:induction false} EntrySays(entries: seq<Entry>, i: nat, graph: Graph, norm: string -> string)
    requires i < |entries| && GraphOf(graph, entries, i, norm)
    ensures GraphOf(ReadEntry(graph, entries[i], norm).0, entries, i + 1, norm)
    ensures ReadEntry(graph, entries[i], norm).1 == Complaint(entries, i, norm)
  {
    forall name ensures Taken(entries, i + 1, name, norm) <==>
      Taken(entries, i, name, norm) || (Accepted(entries, i, norm) && norm(entries[i].name) == name)
    {
      TakenNext(entries, i, name, norm);
    }
    if Accepted(entries, i, norm) {
      forall j: nat | j < i && Accepted(entries, j, norm) ensures norm(entries[j].name) != norm(entries[i].name) {
      }
    }
  }

  lemma {:induction false} TakenNext(entries: seq<Entry>, i: nat, name: string, norm: string -> string)
    requires i < |entries|
    ensures Taken(entries, i + 1, name, norm) <==>
      Taken(entries, i, name, norm) || (Accepted(entries, i, norm) && norm(entries[i].name) == name)
  {
    if Taken(entries, i, name, norm) {
      var j: nat :| j < i && Accepted(entries, j, norm) && norm(entries[j].name) == name;
      assert j < i + 1;
    }
    if Taken(entries, i + 1, name, norm) {
      var j: nat :| j < i + 1 && Accepted(entries, j, norm) && norm(entries[j].name) == name;
      assert j < i ==> Taken(entries, i, name, norm);
    }
  }

  // --------------------------------------------------------------- policies

  datatype Policy = Policy(root: string, required: seq<string>, forbidden: seq<string>)

  function Mapped(values: seq<string>, norm: string -> string): (r: seq<string>)
    ensures |r| == |values| && forall i :: 0 <= i < |values| ==> r[i] == norm(values[i])
  {
    if values == [] then [] else [norm(values[0])] + Mapped(values[1..], norm)
  }

  function Chosen(names: seq<string>, closure: set<string>, inside: bool): (r: seq<string>)
    ensures forall n :: n in r <==> n in names && (n in closure <==> inside)
  {
    if names == [] then []
    else
      var rest := Chosen(names[1..], closure, inside);
      if names[0] in closure <==> inside then [names[0]] + rest else rest
  }

  /** The normalised names inside, or outside, the closure, sorted. */
  function Select(values: seq<string>, norm: string -> string, closure: set<string>, inside: bool): (r: seq<string>)
    ensures forall n :: n in r <==> n in Mapped(values, norm) && (n in closure <==> inside)
  {
    var chosen := Chosen(Mapped(values, norm), closure, inside);
    SameElements(Sort(chosen, StrLe), chosen);
    Sort(chosen, StrLe)
  }

  lemma {:induction false} SelectSorted(values: seq<string>, norm: string -> string, closure: set<string>, inside: bool)
    ensures Sorted(Select(values, norm, closure, inside), StrLe)
  {
    StrLeTotalOrder();
    SortSorts(Chosen(Mapped(values, norm), closure, inside), StrLe);
  }

  ghost predicate AllReachable(graph: Graph, root: string, names: seq<string>) {
    forall n :: n in names ==> Reachable(graph, root, n)
  }

  ghost predicate NoneReachable(graph: Graph, root: string, names: seq<string>) {
    forall n :: n in names ==> !Reachable(graph, root, n)
  }

  /** The policy holds of the graph. */
  ghost predicate Holds(graph: Graph, p: Policy, norm: string -> string) {
    norm(p.root) in graph ==>
      && AllReachable(graph, norm(p.root), Mapped(p.required, norm))
      && NoneReachable(graph, norm(p.root), Mapped(p.forbidden, norm))
  }

  /** The names listed in a violation are exactly those of `names` whose reachability is `inside`. */
  ghost predicate Lists(graph: Graph, root: string, names: seq<string>, inside: bool, listed: seq<string>) {
    && listed != [] && Sorted(listed, StrLe)
    && forall n :: n in listed <==> n in names && (Reachable(graph, root, n) <==> inside)
  }

  /** A violation tells the truth about the policy. */
  ghost predicate Truthful(graph: Graph, p: Policy, norm: string -> string, v: Violation) {
    match v
    case Missing(r, names) => r == norm(p.root) && Lists(graph, r, Mapped(p.required, norm), false, names)
    case Forbidden(r, names) => r == norm(p.root) && Lists(graph, r, Mapped(p.forbidden, norm), true, names)
    case _ => false
  }

  /** The names of a policy inside or outside the closure. */
  method NamesFor(
    graph: Graph, root: string, values: seq<string>, norm: string -> string, closure: set<string>, inside: bool)
    returns (listed: seq<string>)
    requires forall x :: x in closure <==> Reachable(graph, root, x)
    ensures listed != [] ==> Lists(graph, root, Mapped(values, norm), inside, listed)
    ensures listed == [] <==> (if inside then NoneReachable(graph, root, Mapped(values, norm))
                               else AllReachable(graph, root, Mapped(values, norm)))
  {
    listed := Select(values, norm, closure, inside);
    SelectSorted(values, norm, closure, inside);
    if listed != [] {
      assert listed[0] in listed;
    }
  }

  /** A list that reports on a policy: what it says of it is true, and it says all there is to say. */
  ghost predicate Reported(violations: seq<Violation>, graph: Graph, p: Policy, norm: string -> string) {
    norm(p.root) in graph ==>
      && (!AllReachable(graph, norm(p.root), Mapped(p.required, norm)) ==>
            exists v :: v in violations && v.Missing? && Truthful(graph, p, norm, v))
      && (!NoneReachable(graph, norm(p.root), Mapped(p.forbidden, norm)) ==>
            exists v :: v in violations && v.Forbidden? && Truthful(graph, p, norm, v))
  }

  /** The list is empty exactly when the policy holds; it tells the truth about it, and all of it. */
  ghost predicate PolicySaid(violations: seq<Violation>, graph: Graph, p: Policy, norm: string -> string) {
    && (violations == [] <==> Holds(graph, p, norm))
    && (forall v :: v in violations ==> Truthful(graph, p, norm, v))
    && Reported(violations, graph, p, norm)
  }

  method CheckPolicy(graph: Graph, p: Policy, norm: string -> string) returns (violations: seq<Violation>)
    ensures PolicySaid(violations, graph, p, norm)
    ensures |violations| <= 2 && (|violations| == 2 ==> violations[0].Missing? && violations[1].Forbidden?)
  {
    violations := [];
    var root := norm(p.root);
    if root !in graph {
      return;
    }
    var closure := Closure(graph, root);
    var missing := NamesFor(graph, root, p.required, norm, closure, false);
    var forbidden := NamesFor(graph, root, p.forbidden, norm, closure, true);
    if missing != [] {
      violations := violations + [Missing(root, missing)];
    }
    if forbidden != [] {
      violations := violations + [Forbidden(root, forbidden)];
    }
    assert missing != [] ==> Missing(root, missing) in violations;
    assert forbidden != [] ==> Forbidden(root, forbidden) in violations;
  }

  ghost predicate AllHold(graph: Graph, policies: seq<Policy>, norm: string -> string) {
    forall i :: 0 <= i < |policies| ==> Holds(graph, policies[i], norm)
  }

  /** The reports on the policies, one after another. */
  ghost function Joined(reports: seq<seq<Violation>>): seq<Violation> {
    if reports == [] then [] else Joined(reports[..|reports| - 1]) + reports[|reports| - 1]
  }

  ghost predicate AllSaid(reports: seq<seq<Violation>>, graph: Graph, policies: seq<Policy>, norm: string -> string) {
    && |reports| == |policies|
    && forall i :: 0 <= i < |policies| ==> PolicySaid(reports[i], graph, policies[i], norm)
  }

  method CheckPolicies(graph: Graph, policies: seq<Policy>, norm: string -> string)
    returns (violations: seq<Violation>, ghost reports: seq<seq<Violation>>)
    ensures violations == Joined(reports) && AllSaid(reports, graph, policies, norm)
  {
    violations, reports := [], [];
    for i := 0 to |policies|
      invariant |reports| == i && violations == Joined(reports)
      invariant forall j :: 0 <= j < i ==> PolicySaid(reports[j], graph, policies[j], norm)
    {
      var more := CheckPolicy(graph, policies[i], norm);
      assert (reports + [more])[..|reports|] == reports;
      violations, reports := violations + more, reports + [more];
    }
  }

  lemma {:induction false} JoinedEmpty(reports: seq<seq<Violation>>)
    ensures Joined(reports) == [] <==> forall i :: 0 <= i < |reports| ==> reports[i] == []
  {
    if reports != [] {
      JoinedEmpty(reports[..|reports| - 1]);
    }
  }

  lemma {:induction false} SilentPolicies(
    reports: seq<seq<Violation>>, graph: Graph, policies: seq<Policy>, norm: string -> string)
    requires AllSaid(reports, graph, policies, norm)
    ensures Joined(reports) == [] <==> AllHold(graph, policies, norm)
  {
    JoinedEmpty(reports);
    assert forall i :: 0 <= i < |policies| ==>
      PolicySaid(reports[i], graph, policies[i], norm) && (reports[i] == [] <==> Holds(graph, policies[i], norm));
  }

  /** `_runtime_dependency_closure_violations` on the entries of a lock file: nothing is reported
      exactly when the lock file is clean and every policy holds of its graph. */
  method Violations(
    entries: seq<Entry>, policies: seq<Policy>, norm: string -> string) returns (violations: seq<Violation>)
    ensures violations == [] <==>
      AllWellFormed(entries) && NamesDiffer(entries, norm) && AllHold(ReadLock(entries, norm).0, policies, norm)
    ensures exists graph, reports ::
      && GraphOf(graph, entries, |entries|, norm)
      && violations == Complaints(entries, |entries|, norm) + Joined(reports)
      && AllSaid(reports, graph, policies, norm)
  {
    CleanLock(entries, norm);
    LockSays(entries, |entries|, norm);
    assert entries[..|entries|] == entries;
    var graph;
    graph, violations := BuildGraph(entries, norm);
    var more, reports := CheckPolicies(graph, policies, norm);
    SilentPolicies(reports, graph, policies, norm);
    violations := violations + more;
  }
}
