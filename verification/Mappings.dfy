/** Solidity mappings to uint256: a word that was never written reads as zero. */
module Mappings {
  import opened Evm

  function Get<K>(m: map<K, Uint256>, k: K): Uint256 {
    if k in m then m[k] else 0
  }

  /** The sum of all the entries. */
  ghost function Sum<K>(m: map<K, Uint256>): nat
    decreases |m|
  {
    if m == map[] then 0 else
    var k :| k in m;
    m[k] + Sum(m - {k})
  }

  lemma {:induction false} SumRemove<K>(m: map<K, Uint256>, k: K)
    requires k in m
    ensures Sum(m) == m[k] + Sum(m - {k})
    decreases |m|
  {
    var c :| c in m && Sum(m) == m[c] + Sum(m - {c});
    if c != k {
      SumRemove(m - {c}, k);
      SumRemove(m - {k}, c);
      assert m - {c} - {k} == m - {k} - {c};
    }
  }

  /** Writing one entry moves the sum by exactly the change of that entry. */
  lemma SumPut<K>(m: map<K, Uint256>, k: K, v: Uint256)
    ensures Sum(m[k := v]) == Sum(m) - Get(m, k) + v
  {
    SumRemove(m[k := v], k);
    assert m[k := v] - {k} == m - {k};
    if k in m {
      SumRemove(m, k);
    } else {
      assert m - {k} == m;
    }
  }

  lemma SumCovers<K>(m: map<K, Uint256>, k: K)
    ensures Get(m, k) <= Sum(m)
  {
    if k in m {
      SumRemove(m, k);
    }
  }

  lemma SumEmpty<K(!new)>(m: map<K, Uint256>)
    requires forall k :: k in m ==> m[k] == 0
    ensures Sum(m) == 0
    decreases |m|
  {
    if m != map[] {
      var c :| c in m && Sum(m) == m[c] + Sum(m - {c});
      SumEmpty(m - {c});
    }
  }

  // Mappings of mappings are keyed by pairs. `Row` and `Column` cut out one inner mapping.

  ghost function Row<A, B>(m: map<(A, B), Uint256>, a: A): map<(A, B), Uint256> {
    map k | k in m && k.0 == a :: m[k]
  }

  ghost function Column<A, B>(m: map<(A, B), Uint256>, b: B): map<(A, B), Uint256> {
    map k | k in m && k.1 == b :: m[k]
  }

  ghost function RowSum<A, B>(m: map<(A, B), Uint256>, a: A): nat {
    Sum(Row(m, a))
  }

  ghost function ColumnSum<A, B>(m: map<(A, B), Uint256>, b: B): nat {
    Sum(Column(m, b))
  }

  lemma RowSumPut<A(!new), B(!new)>(m: map<(A, B), Uint256>, k: (A, B), v: Uint256, a: A)
    ensures RowSum(m[k := v], a) == RowSum(m, a) + if k.0 == a then v - Get(m, k) else 0
  {
    if k.0 == a {
      assert Row(m[k := v], a) == Row(m, a)[k := v];
      SumPut(Row(m, a), k, v);
    } else {
      assert Row(m[k := v], a) == Row(m, a);
    }
  }

  lemma ColumnSumPut<A(!new), B(!new)>(m: map<(A, B), Uint256>, k: (A, B), v: Uint256, b: B)
    ensures ColumnSum(m[k := v], b) == ColumnSum(m, b) + if k.1 == b then v - Get(m, k) else 0
  {
    if k.1 == b {
      assert Column(m[k := v], b) == Column(m, b)[k := v];
      SumPut(Column(m, b), k, v);
    } else {
      assert Column(m[k := v], b) == Column(m, b);
    }
  }

  /** `totals` holds the row sums of `m`. */
  ghost predicate AreRowSums<A(!new), B>(totals: map<A, Uint256>, m: map<(A, B), Uint256>) {
    forall a :: Get(totals, a) == RowSum(m, a)
  }

  /** No entry of `claims` exceeds the column of `m` behind it. */
  ghost predicate AreBacked<A, B(!new)>(claims: map<B, Uint256>, m: map<(A, B), Uint256>) {
    forall b :: Get(claims, b) <= ColumnSum(m, b)
  }

  lemma RowSumsPut<A(!new), B(!new)>(totals: map<A, Uint256>, m: map<(A, B), Uint256>, k: (A, B), total: Uint256,
                                     v: Uint256)
    requires AreRowSums(totals, m)
    requires total - Get(totals, k.0) == v - Get(m, k)
    ensures AreRowSums(totals[k.0 := total], m[k := v])
  {
    var totals' := totals[k.0 := total];
    forall a ensures Get(totals', a) == RowSum(m[k := v], a) {
      RowSumPut(m, k, v, a);
    }
  }

  lemma BackedPut<A(!new), B(!new)>(claims: map<B, Uint256>, m: map<(A, B), Uint256>, k: (A, B), claim: Uint256,
                                    v: Uint256)
    requires AreBacked(claims, m)
    requires claim - Get(claims, k.1) <= v - Get(m, k)
    ensures AreBacked(claims[k.1 := claim], m[k := v])
  {
    var claims' := claims[k.1 := claim];
    forall b ensures Get(claims', b) <= ColumnSum(m[k := v], b) {
      ColumnSumPut(m, k, v, b);
    }
  }

  lemma RowCovers<A, B>(m: map<(A, B), Uint256>, k: (A, B))
    ensures Get(m, k) <= RowSum(m, k.0)
  {
    SumCovers(Row(m, k.0), k);
  }

  lemma ColumnCovers<A, B>(m: map<(A, B), Uint256>, k: (A, B))
    ensures Get(m, k) <= ColumnSum(m, k.1)
  {
    SumCovers(Column(m, k.1), k);
  }
}
