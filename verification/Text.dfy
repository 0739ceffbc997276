/**
  Results, text ordering, sorting and decimal numerals shared by every component.
  Python compares strings by code point, sorts stably and prints integers in base ten.
 */
module Text {

  datatype Option<+T> = None | Some(value: T)

  datatype Result<+T, +E> = Ok(value: T) | Err(error: E)

  // ---------------------------------------------------------------- ordering

  /** Code-point order of two strings. */
  predicate StrLt(a: string, b: string)
  {
    b != [] && (a == [] || a[0] < b[0] || (a[0] == b[0] && StrLt(a[1..], b[1..])))
  }

  predicate StrLe(a: string, b: string) {
    a == b || StrLt(a, b)
  }

  lemma {:induction false} StrLtIrreflexive(a: string)
    ensures !StrLt(a, a)
  {
    if a != [] {
      StrLtIrreflexive(a[1..]);
    }
  }

  lemma {:induction false} StrLtTransitive(a: string, b: string, c: string)
    requires StrLt(a, b) && StrLt(b, c)
    ensures StrLt(a, c)
  {
    if a != [] && a[0] == b[0] && b[0] == c[0] {
      StrLtTransitive(a[1..], b[1..], c[1..]);
    }
  }

  lemma {:induction false} StrLtTotal(a: string, b: string)
    ensures StrLt(a, b) || a == b || StrLt(b, a)
  {
    if a != [] && b != [] && a[0] == b[0] {
      StrLtTotal(a[1..], b[1..]);
      if a[1..] == b[1..] {
        assert a == [a[0]] + a[1..] && b == [b[0]] + b[1..];
      }
    }
  }

  /** The facts a stable sort and its uniqueness argument need of an order. */
  ghost predicate TotalPreorder<T(!new)>(le: (T, T) -> bool) {
    && (forall x, y :: le(x, y) || le(y, x))
    && (forall x, y, z :: le(x, y) && le(y, z) ==> le(x, z))
  }

  lemma {:induction false} StrLeTotalOrder()
    ensures TotalPreorder(StrLe)
    ensures forall x, y :: StrLe(x, y) && StrLe(y, x) ==> x == y
  {
    forall x, y ensures StrLe(x, y) || StrLe(y, x) {
      StrLtTotal(x, y);
    }
    forall x, y, z | StrLe(x, y) && StrLe(y, z) ensures StrLe(x, z) {
      if x != y && y != z {
        StrLtTransitive(x, y, z);
      }
    }
    forall x, y | StrLe(x, y) && StrLe(y, x) ensures x == y {
      if x != y {
        StrLtTransitive(x, y, x);
        StrLtIrreflexive(x);
      }
    }
  }

  // ------------------------------------------------------------------- sets

  lemma {:induction false} ThreeIn<T>(all: set<T>)
    ensures |all| >= 3 <==> exists x, y, z :: x in all && y in all && z in all && x != y && x != z && y != z
  {
    if |all| >= 3 {
      var x :| x in all;
      assert |all - {x}| >= 2 && |all - {x} - {x}| >= 2;
      var y :| y in all - {x};
      assert |all - {x} - {y}| >= 1;
      var z :| z in all - {x} - {y};
    } else if exists x, y, z :: x in all && y in all && z in all && x != y && x != z && y != z {
      var x, y, z :| x in all && y in all && z in all && x != y && x != z && y != z;
      assert {x, y, z} <= all && |{x, y, z}| == 3;
      SubsetSize({x, y, z}, all);
    }
  }

  lemma {:induction false} SubsetSize<T>(a: set<T>, b: set<T>)
    requires a <= b
    ensures |a| <= |b|
  {
    assert b == a + (b - a);
  }

  // ----------------------------------------------------------------- sorting

  ghost predicate Sorted<T(!new)>(xs: seq<T>, le: (T, T) -> bool) {
    forall i, j :: 0 <= i < j < |xs| ==> le(xs[i], xs[j])
  }

  function Insert<T>(x: T, xs: seq<T>, le: (T, T) -> bool): (r: seq<T>)
    ensures multiset(r) == multiset{x} + multiset(xs)
  {
    if xs == [] then [x]
    else if le(x, xs[0]) then [x] + xs
    else
      assert xs == [xs[0]] + xs[1..];
      [xs[0]] + Insert(x, xs[1..], le)
  }

  /** A stable sort: equal elements keep their order. */
  function Sort<T>(xs: seq<T>, le: (T, T) -> bool): (r: seq<T>)
    ensures multiset(r) == multiset(xs)
    ensures |r| == |xs|
  {
    if xs == [] then []
    else
      assert xs == [xs[0]] + xs[1..];
      assert |multiset(Insert(xs[0], Sort(xs[1..], le), le))| == |xs|;
      Insert(xs[0], Sort(xs[1..], le), le)
  }

  lemma {:induction false} SameElements<T>(a: seq<T>, b: seq<T>)
    requires multiset(a) == multiset(b)
    ensures forall x :: x in a <==> x in b
    ensures |a| == |b|
  {
    assert forall x :: x in a <==> x in multiset(a);
    assert |a| == |multiset(a)|;
  }

  lemma {:induction false} InsertSorted<T(!new)>(x: T, xs: seq<T>, le: (T, T) -> bool)
    requires TotalPreorder(le) && Sorted(xs, le)
    ensures Sorted(Insert(x, xs, le), le)
  {
    if xs != [] && !le(x, xs[0]) {
      InsertSorted(x, xs[1..], le);
      var rest := Insert(x, xs[1..], le);
      forall y | y in rest ensures le(xs[0], y) {
        assert y in multiset(rest);
        if y != x {
          assert y in xs[1..];
        }
      }
    }
  }

  lemma {:induction false} SortSorts<T(!new)>(xs: seq<T>, le: (T, T) -> bool)
    requires TotalPreorder(le)
    ensures Sorted(Sort(xs, le), le)
  {
    if xs != [] {
      SortSorts(xs[1..], le);
      InsertSorted(xs[0], Sort(xs[1..], le), le);
    }
  }

  lemma {:induction false} SortedHead<T(!new)>(a: seq<T>, b: seq<T>, le: (T, T) -> bool)
    requires a != [] && b != [] && Sorted(a, le) && b[0] in a
    ensures a[0] == b[0] || le(a[0], b[0])
  {
    var j :| 0 <= j < |a| && a[j] == b[0];
  }

  ghost predicate TiesEqual<T(!new)>(xs: seq<T>, le: (T, T) -> bool) {
    forall x, y {:trigger le(x, y), le(y, x)} :: x in xs && y in xs && le(x, y) && le(y, x) ==> x == y
  }

  lemma {:induction false} Tail<T(!new)>(a: seq<T>, le: (T, T) -> bool)
    requires a != [] && Sorted(a, le)
    ensures Sorted(a[1..], le)
    ensures TiesEqual(a, le) ==> TiesEqual(a[1..], le)
    ensures multiset(a[1..]) == multiset(a) - multiset{a[0]}
  {
    assert a == [a[0]] + a[1..];
  }

  lemma {:induction false} SameHead<T(!new)>(a: seq<T>, b: seq<T>, le: (T, T) -> bool)
    requires Sorted(a, le) && Sorted(b, le) && TiesEqual(a, le)
    requires multiset(a) == multiset(b) && a != []
    ensures b != [] && a[0] == b[0]
  {
    SameElements(a, b);
    assert a[0] in b;
    SortedHead(a, b, le);
    SortedHead(b, a, le);
  }

  lemma {:induction false} HeadTail<T>(a: seq<T>)
    requires a != []
    ensures a == [a[0]] + a[1..]
  {
  }

  /** Two sorted arrangements of the same elements agree when ties are equal elements. */
  lemma {:induction false} SortedUnique<T(!new)>(a: seq<T>, b: seq<T>, le: (T, T) -> bool)
    requires Sorted(a, le) && Sorted(b, le)
    requires multiset(a) == multiset(b)
    requires TiesEqual(a, le)
    ensures a == b
    decreases |a|
  {
    if a != [] {
      SameHead(a, b, le);
      Tail(a, le);
      Tail(b, le);
      SortedUnique(a[1..], b[1..], le);
      HeadTail(a);
      HeadTail(b);
    }
  }

  /** Sorting depends only on which elements are present. */
  lemma {:induction false} SortPermutation<T(!new)>(a: seq<T>, b: seq<T>, le: (T, T) -> bool)
    requires TotalPreorder(le)
    requires multiset(a) == multiset(b)
    requires TiesEqual(a, le)
    ensures Sort(a, le) == Sort(b, le)
  {
    SortSorts(a, le);
    SortSorts(b, le);
    SameElements(a, Sort(a, le));
    SortedUnique(Sort(a, le), Sort(b, le), le);
  }

  lemma {:induction false} SortOfSorted<T(!new)>(a: seq<T>, le: (T, T) -> bool)
    requires TotalPreorder(le) && Sorted(a, le)
    requires TiesEqual(a, le)
    ensures Sort(a, le) == a
  {
    SortSorts(a, le);
    SortedUnique(a, Sort(a, le), le);
  }

  /** No two positions hold the same element. */
  ghost predicate Distinct<T>(xs: seq<T>) {
    forall i, j :: 0 <= i < j < |xs| ==> xs[i] != xs[j]
  }

  // ---------------------------------------------------------------- numerals

  predicate IsDigit(c: char) {
    '0' <= c <= '9'
  }

  predicate AllDigits(s: string) {
    forall i :: 0 <= i < |s| ==> IsDigit(s[i])
  }

  function DigitChar(d: int): (c: char)
    requires 0 <= d < 10
    ensures IsDigit(c)
  {
    ('0' as int + d) as char
  }

  function DigitValue(c: char): (d: int)
    requires IsDigit(c)
    ensures 0 <= d < 10 && DigitChar(d) == c
  {
    c as int - '0' as int
  }

  /** Base-ten text of a natural number, as `str(n)` prints it. */
  function NatText(n: nat): (s: string)
    ensures |s| >= 1 && AllDigits(s)
    ensures s[0] == '0' ==> n == 0
    ensures NatValue(s) == n
  {
    if n < 10 then [DigitChar(n)]
    else
      var s := NatText(n / 10) + [DigitChar(n % 10)];
      assert s[..|s| - 1] == NatText(n / 10);
      s
  }

  /** Value of a digit string, as `int(text)` reads it. */
  function NatValue(s: string): (n: nat)
    requires AllDigits(s)
  {
    if s == [] then 0 else 10 * NatValue(s[..|s| - 1]) + DigitValue(s[|s| - 1])
  }

  function IntText(n: int): (s: string)
    ensures s != []
  {
    if n < 0 then "-" + NatText(-n) else NatText(n)
  }

  // ------------------------------------------------------------------ slices

  lemma {:induction false} DropPrefix<T>(a: seq<T>, b: seq<T>)
    ensures (a + b)[|a|..] == b
    ensures (a + b)[..|a|] == a
  {
  }

  lemma {:induction false} Sandwich(a: string, x: string, y: string, b: string)
    requires a + x + b == a + y + b
    ensures x == y
  {
    assert |x| == |y|;
    assert (a + x + b)[|a|..|a| + |x|] == x && (a + y + b)[|a|..|a| + |y|] == y;
  }
}
