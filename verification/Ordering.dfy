/** Lexicographic order on text, and positions in an ordered finite set. */
module Ordering {

  // ---------------------------------------------------------------------------
  // Lexicographic order, as SQLite's binary collation and Go's string comparison use it
  // ---------------------------------------------------------------------------

  /** The code of a symbol; text of any alphabet is compared through it. */
  type Coding<!T> = T -> int

  ghost predicate Injective<T(!new)>(code: Coding<T>) {
    forall x, y {:trigger code(x), code(y)} :: code(x) == code(y) ==> x == y
  }

  predicate LexLess<T(==)>(code: Coding<T>, a: seq<T>, b: seq<T>) {
    b != [] && (a == [] || code(a[0]) < code(b[0]) || (code(a[0]) == code(b[0]) && LexLess(code, a[1..], b[1..])))
  }

  lemma {:induction false} LexIrreflexive<T>(code: Coding<T>, a: seq<T>)
    ensures !LexLess(code, a, a)
  {
    if a != [] { LexIrreflexive(code, a[1..]); }
  }

  lemma {:induction false} LexTransitive<T>(code: Coding<T>, a: seq<T>, b: seq<T>, c: seq<T>)
    requires LexLess(code, a, b) && LexLess(code, b, c)
    ensures LexLess(code, a, c)
  {
    if a != [] && code(a[0]) == code(b[0]) == code(c[0]) { LexTransitive(code, a[1..], b[1..], c[1..]); }
  }

  lemma {:induction false} LexTotal<T(!new)>(code: Coding<T>, a: seq<T>, b: seq<T>)
    requires Injective(code)
    ensures LexLess(code, a, b) || a == b || LexLess(code, b, a)
  {
    if a != [] && b != [] && code(a[0]) == code(b[0]) {
      LexTotal(code, a[1..], b[1..]);
      assert a == [a[0]] + a[1..] && b == [b[0]] + b[1..];
    }
  }

  function CharCode(c: char): int { c as int }

  predicate StringLess(a: string, b: string) {
    LexLess(CharCode, a, b)
  }

  // ---------------------------------------------------------------------------
  // Positions in an ordered finite set
  // ---------------------------------------------------------------------------

  /** A strict total order on the members of s. */
  ghost predicate StrictTotal<T>(less: (T, T) -> bool, s: set<T>) {
    && (forall x <- s :: !less(x, x))
    && (forall x <- s, y <- s, z <- s :: less(x, y) && less(y, z) ==> less(x, z))
    && (forall x <- s, y <- s :: x == y || less(x, y) || less(y, x))
  }

  /** How many members come before x. */
  function Rank<T>(less: (T, T) -> bool, s: set<T>, x: T): nat {
    |set y | y in s && less(y, x)|
  }

  function FirstRanked<T>(less: (T, T) -> bool, s: set<T>, n: int): set<T> {
    set x | x in s && Rank(less, s, x) < n
  }

  lemma {:induction false} LastExists<T>(less: (T, T) -> bool, s: set<T>) returns (last: T)
    requires s != {} && StrictTotal(less, s)
    ensures last in s && forall x <- s :: x == last || less(x, last)
  {
    var x :| x in s;
    if s == {x} {
      last := x;
    } else {
      var rest := s - {x};
      last := LastExists(less, rest);
      if less(last, x) { last := x; }
    }
  }

  lemma {:induction false} FirstExists<T>(less: (T, T) -> bool, s: set<T>) returns (first: T)
    requires s != {} && StrictTotal(less, s)
    ensures first in s && forall x <- s :: x == first || less(first, x)
  {
    var x :| x in s;
    if s == {x} {
      first := x;
    } else {
      var rest := s - {x};
      first := FirstExists(less, rest);
      if less(x, first) { first := x; }
    }
  }

  /** Exactly n members, or all of them, have rank below n. */
  lemma {:induction false} FirstRankedSize<T>(less: (T, T) -> bool, s: set<T>, n: nat)
    requires StrictTotal(less, s)
    ensures |FirstRanked(less, s, n)| == if n < |s| then n else |s|
    decreases |s|
  {
    if s == {} {
      assert FirstRanked(less, s, n) == {};
    } else {
      var last := LastExists(less, s);
      var rest := s - {last};
      FirstRankedSize(less, rest, n);
      assert (set y | y in s && less(y, last)) == rest;
      forall x <- rest ensures Rank(less, s, x) == Rank(less, rest, x) {
        assert (set y | y in s && less(y, x)) == (set y | y in rest && less(y, x));
      }
      if |rest| < n {
        assert FirstRanked(less, s, n) == FirstRanked(less, rest, n) + {last};
      } else {
        assert FirstRanked(less, s, n) == FirstRanked(less, rest, n);
      }
    }
  }

  /** Fewer members before x mean a lower rank. */
  lemma RankBelow<T>(less: (T, T) -> bool, s: set<T>, other: (T, T) -> bool, u: set<T>, x: T)
    requires forall y <- s :: less(y, x) ==> y in u && other(y, x)
    ensures Rank(less, s, x) <= Rank(other, u, x)
  {
    CardinalityMonotone(set y | y in s && less(y, x), set y | y in u && other(y, x));
  }

  /** The members of low rank are closed downwards. */
  lemma RankMonotone<T>(less: (T, T) -> bool, s: set<T>, x: T, y: T)
    requires StrictTotal(less, s) && x in s && y in s && less(x, y)
    ensures Rank(less, s, x) < Rank(less, s, y)
  {
    var below, above := set z | z in s && less(z, x), set z | z in s && less(z, y);
    assert below + {x} <= above;
    CardinalityMonotone(below + {x}, above);
  }

  lemma {:induction false} CardinalityMonotone<T>(a: set<T>, b: set<T>)
    requires a <= b
    ensures |a| <= |b|
    decreases a
  {
    if a != {} {
      var x :| x in a;
      CardinalityMonotone(a - {x}, b - {x});
    }
  }
}
