/** Sequences without repetitions, and the order in which their elements come. */
module Sequences {

  predicate Distinct<T(==)>(s: seq<T>) {
    s == [] || (s[0] !in s[1..] && Distinct(s[1..]))
  }

  lemma {:induction false} DistinctAt<T>(s: seq<T>, i: nat, j: nat)
    requires Distinct(s) && i < |s| && j < |s|
    ensures s[i] == s[j] <==> i == j
  {
    if i > 0 && j > 0 {
      DistinctAt(s[1..], i - 1, j - 1);
    }
  }

  lemma {:induction false} DistinctAppend<T>(s: seq<T>, x: T)
    requires Distinct(s) && x !in s
    ensures Distinct(s + [x])
  {
    if s != [] {
      DistinctAppend(s[1..], x);
      assert (s + [x])[1..] == s[1..] + [x];
    }
  }

  lemma {:induction false} DistinctPrefix<T>(s: seq<T>, x: T)
    requires Distinct(s + [x])
    ensures Distinct(s) && x !in s
  {
    if s != [] {
      assert (s + [x])[1..] == s[1..] + [x];
      DistinctPrefix(s[1..], x);
      assert x in s[1..] + [x];
    }
  }

  /** `x` occurs in `s` and `y` occurs later. */
  predicate Before<T(==)>(s: seq<T>, x: T, y: T) {
    s != [] && if s[0] == x then y in s[1..] else Before(s[1..], x, y)
  }

  lemma {:induction false} BeforeIn<T>(s: seq<T>, x: T, y: T)
    ensures Before(s, x, y) ==> x in s && y in s
  {
    if s != [] && s[0] != x {
      BeforeIn(s[1..], x, y);
    }
  }

  lemma {:induction false} BeforeIrreflexive<T>(s: seq<T>, x: T)
    requires Distinct(s)
    ensures !Before(s, x, x)
  {
    if s != [] {
      BeforeIrreflexive(s[1..], x);
    }
  }

  lemma {:induction false} BeforeOneWay<T>(s: seq<T>, x: T, y: T)
    requires Distinct(s) && Before(s, x, y)
    ensures x != y && !Before(s, y, x)
  {
    if s[0] == x {
      BeforeIn(s[1..], y, x);
    } else {
      BeforeOneWay(s[1..], x, y);
      BeforeIn(s[1..], x, y);
    }
  }
}
