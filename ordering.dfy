/**
 * The orders Python's list.sort() uses on the values the summaries sort:
 * strings (character by character, a proper prefix first), (key, value)
 * pairs (by key, then by value) and tuples of pairs (lexicographically),
 * together with sorting into a strictly ascending, duplicate-free list.
 */
module Ordering {

  /** `lt` is irreflexive, transitive and relates every two distinct values. */
  ghost predicate StrictTotalOrder<T(!new)>(lt: (T, T) -> bool) {
    && (forall x :: !lt(x, x))
    && (forall x, y, z :: lt(x, y) && lt(y, z) ==> lt(x, z))
    && (forall x, y :: x != y ==> lt(x, y) || lt(y, x))
  }

  ghost predicate StrictlySorted<T>(s: seq<T>, lt: (T, T) -> bool) {
    forall i, j :: 0 <= i < j < |s| ==> lt(s[i], s[j])
  }

  ghost predicate Distinct<T>(s: seq<T>) {
    forall i, j :: 0 <= i < j < |s| ==> s[i] != s[j]
  }

  ghost function Elems<T>(s: seq<T>): set<T> {
    set x | x in s
  }

  /** Inserts `x` into the strictly sorted `s`, keeping it strictly sorted; a value already present is not repeated. */
  function Insert<T(==,!new)>(x: T, s: seq<T>, lt: (T, T) -> bool): (r: seq<T>)
    requires StrictTotalOrder(lt) && StrictlySorted(s, lt)
    ensures StrictlySorted(r, lt)
    ensures Elems(r) == Elems(s) + {x}
  {
    if s == [] then [x]
    else if lt(x, s[0]) then
      assert forall j :: 0 <= j < |s| ==> lt(x, s[j]);
      [x] + s
    else if x == s[0] then s
    else
      var t := Insert(x, s[1..], lt);
      assert Elems(s) == {s[0]} + Elems(s[1..]);
      assert forall j :: 0 <= j < |t| ==> t[j] in Elems(s[1..]) + {x};
      [s[0]] + t
  }

  /** Some element of a non-empty set. */
  ghost function Pick<T>(s: set<T>): (x: T)
    requires s != {}
    ensures x in s
  {
    var x :| x in s; x
  }

  /** The strictly sorted list of the distinct values of `xs`. */
  function SortDistinct<T(==,!new)>(xs: seq<T>, lt: (T, T) -> bool): (r: seq<T>)
    requires StrictTotalOrder(lt)
    ensures StrictlySorted(r, lt)
    ensures Elems(r) == Elems(xs)
  {
    if xs == [] then []
    else
      assert Elems(xs) == {xs[0]} + Elems(xs[1..]);
      Insert(xs[0], SortDistinct(xs[1..], lt), lt)
  }

  /** list(s) followed by sort(): the elements of the set `s` in ascending order. */
  method SortSet<T(==,!new)>(s: set<T>, lt: (T, T) -> bool) returns (r: seq<T>)
    requires StrictTotalOrder(lt)
    ensures StrictlySorted(r, lt)
    ensures Elems(r) == s
  {
    r := [];
    var rest := s;
    while rest != {}
      invariant StrictlySorted(r, lt)
      invariant Elems(r) + rest == s
      decreases rest
    {
      var x :| x in rest;
      r := Insert(x, r, lt);
      rest := rest - {x};
    }
  }

  /** A strictly sorted list is determined by its elements. */
  lemma {:induction false} SortedUnique<T(!new)>(a: seq<T>, b: seq<T>, lt: (T, T) -> bool)
    requires StrictTotalOrder(lt)
    requires StrictlySorted(a, lt) && StrictlySorted(b, lt)
    requires Elems(a) == Elems(b)
    ensures a == b
  {
    if a != [] { assert a[0] in Elems(a); }
    if b != [] { assert b[0] in Elems(b); }
    if a != [] && b != [] {
      assert a[0] in Elems(b) && b[0] in Elems(a);
      assert a[0] == b[0];
      assert Elems(a) == {a[0]} + Elems(a[1..]) && a[0] !in Elems(a[1..]);
      assert Elems(b) == {b[0]} + Elems(b[1..]) && b[0] !in Elems(b[1..]);
      SortedUnique(a[1..], b[1..], lt);
      assert a == [a[0]] + a[1..] && b == [b[0]] + b[1..];
    }
  }

  /** A strictly sorted list has no repeated element. */
  lemma SortedIsDistinct<T(!new)>(s: seq<T>, lt: (T, T) -> bool)
    requires StrictTotalOrder(lt) && StrictlySorted(s, lt)
    ensures Distinct(s)
  {
  }

  /** Lexicographic order of sequences: a proper prefix comes first, otherwise the first differing element decides. */
  predicate LexLess<T(==)>(a: seq<T>, b: seq<T>, lt: (T, T) -> bool)
  {
    if a == [] then b != []
    else if b == [] then false
    else lt(a[0], b[0]) || (a[0] == b[0] && LexLess(a[1..], b[1..], lt))
  }

  lemma {:induction false} LexIrreflexive<T(!new)>(a: seq<T>, lt: (T, T) -> bool)
    requires StrictTotalOrder(lt)
    ensures !LexLess(a, a, lt)
  {
    if a != [] { LexIrreflexive(a[1..], lt); }
  }

  lemma {:induction false} LexTransitive<T(!new)>(a: seq<T>, b: seq<T>, c: seq<T>, lt: (T, T) -> bool)
    requires StrictTotalOrder(lt)
    requires LexLess(a, b, lt) && LexLess(b, c, lt)
    ensures LexLess(a, c, lt)
  {
    if a != [] && b != [] && c != [] && a[0] == b[0] && b[0] == c[0] {
      LexTransitive(a[1..], b[1..], c[1..], lt);
    }
  }

  lemma {:induction false} LexConnected<T(!new)>(a: seq<T>, b: seq<T>, lt: (T, T) -> bool)
    requires StrictTotalOrder(lt)
    requires a != b
    ensures LexLess(a, b, lt) || LexLess(b, a, lt)
  {
    if a != [] && b != [] && a[0] == b[0] {
      assert a == [a[0]] + a[1..] && b == [b[0]] + b[1..];
      LexConnected(a[1..], b[1..], lt);
    }
  }

  /** The lexicographic extension of a strict total order is a strict total order. */
  lemma LexIsStrictTotal<T(!new)>(lt: (T, T) -> bool)
    requires StrictTotalOrder(lt)
    ensures forall a: seq<T> :: !LexLess(a, a, lt)
    ensures forall a: seq<T>, b: seq<T>, c: seq<T> :: LexLess(a, b, lt) && LexLess(b, c, lt) ==> LexLess(a, c, lt)
    ensures forall a: seq<T>, b: seq<T> :: a != b ==> LexLess(a, b, lt) || LexLess(b, a, lt)
  {
    forall a: seq<T> ensures !LexLess(a, a, lt) { LexIrreflexive(a, lt); }
    forall a: seq<T>, b: seq<T>, c: seq<T> | LexLess(a, b, lt) && LexLess(b, c, lt)
      ensures LexLess(a, c, lt)
    {
      LexTransitive(a, b, c, lt);
    }
    forall a: seq<T>, b: seq<T> | a != b ensures LexLess(a, b, lt) || LexLess(b, a, lt) {
      LexConnected(a, b, lt);
    }
  }

  predicate CharLess(x: char, y: char) { x < y }

  /** Python's comparison of two strings. */
  predicate StringLess(a: string, b: string) { LexLess(a, b, CharLess) }

  lemma StringLessTransitive(a: string, b: string, c: string)
    requires StringLess(a, b) && StringLess(b, c)
    ensures StringLess(a, c)
  {
    assert StrictTotalOrder(CharLess);
    LexTransitive(a, b, c, CharLess);
  }

  lemma StringLessIrreflexive(a: string)
    ensures !StringLess(a, a)
  {
    assert StrictTotalOrder(CharLess);
    LexIrreflexive(a, CharLess);
  }

  lemma StringLessIsStrictTotal()
    ensures StrictTotalOrder(StringLess)
  {
    assert StrictTotalOrder(CharLess);
    LexIsStrictTotal(CharLess);
  }

  /** The reverse of StringLess, for lists sorted in descending order. */
  predicate StringGreater(a: string, b: string) { StringLess(b, a) }

  lemma StringGreaterIsStrictTotal()
    ensures StrictTotalOrder(StringGreater)
  {
    StringLessIsStrictTotal();
  }

  /** Python's comparison of two (key, value) tuples of strings. */
  predicate PairLess(p: (string, string), q: (string, string)) {
    StringLess(p.0, q.0) || (p.0 == q.0 && StringLess(p.1, q.1))
  }

  lemma PairLessIsStrictTotal()
    ensures StrictTotalOrder(PairLess)
  {
    StringLessIsStrictTotal();
  }

  /** Python's comparison of two tuples of (key, value) pairs. */
  predicate PairsLess(a: seq<(string, string)>, b: seq<(string, string)>) { LexLess(a, b, PairLess) }

  lemma PairsLessIsStrictTotal()
    ensures StrictTotalOrder(PairsLess)
  {
    PairLessIsStrictTotal();
    LexIsStrictTotal(PairLess);
  }

  /** The order of integer ids, ascending and descending. */
  predicate IntLess(a: int, b: int) { a < b }

  predicate IntGreater(a: int, b: int) { a > b }
}
