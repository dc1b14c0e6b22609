/** LogStoreReportManager.getReporters: the registered nodes, best reputation first. */
module Ranking {
  import opened Evm
  import opened Mappings
  import opened Sequences

  type Reputations = map<Address, Uint256>

  /** Put `a` in front of the first reporter whose reputation is not better. */
  function Insert(a: Address, s: seq<Address>, rep: Reputations): seq<Address> {
    if s == [] || Get(rep, s[0]) <= Get(rep, a) then [a] + s
    else [s[0]] + Insert(a, s[1..], rep)
  }

  /** The reference ranking that the bubble sort has to produce. */
  function Ranked(s: seq<Address>, rep: Reputations): seq<Address> {
    if s == [] then [] else Insert(s[0], Ranked(s[1..], rep), rep)
  }

  function GetReporters(members: seq<Address>, rep: Reputations): Outcome<seq<Address>> {
    if members == [] then Revert(PANIC_ARITHMETIC) else Ok(Ranked(members, rep))
  }

  /** The members of `s` whose reputation is `v`, in the order of `s`. */
  function WithReputation(s: seq<Address>, rep: Reputations, v: Uint256): seq<Address> {
    if s == [] then []
    else (if Get(rep, s[0]) == v then [s[0]] else []) + WithReputation(s[1..], rep, v)
  }

  ghost predicate Descending(s: seq<Address>, rep: Reputations) {
    forall i, j :: 0 <= i < j < |s| ==> Get(rep, s[i]) >= Get(rep, s[j])
  }

  /** Sorting moved nobody past an equal. */
  ghost predicate Stable(s: seq<Address>, t: seq<Address>, rep: Reputations) {
    forall v: Uint256 :: WithReputation(s, rep, v) == WithReputation(t, rep, v)
  }

  // ----- the ranking is a stable descending permutation, and there is only one

  lemma {:induction false} InsertMultiset(a: Address, s: seq<Address>, rep: Reputations)
    ensures multiset(Insert(a, s, rep)) == multiset(s) + multiset{a}
  {
    if s != [] && Get(rep, s[0]) > Get(rep, a) {
      InsertMultiset(a, s[1..], rep);
      assert s == [s[0]] + s[1..];
    }
  }

  lemma {:induction false} RankedPermutes(s: seq<Address>, rep: Reputations)
    ensures multiset(Ranked(s, rep)) == multiset(s)
  {
    if s != [] {
      RankedPermutes(s[1..], rep);
      InsertMultiset(s[0], Ranked(s[1..], rep), rep);
      assert s == [s[0]] + s[1..];
    }
  }

  lemma {:induction false} InsertDescending(a: Address, s: seq<Address>, rep: Reputations)
    requires Descending(s, rep)
    ensures Descending(Insert(a, s, rep), rep)
  {
    if s != [] && Get(rep, s[0]) > Get(rep, a) {
      InsertDescending(a, s[1..], rep);
      InsertMultiset(a, s[1..], rep);
      var rest := Insert(a, s[1..], rep);
      forall j | 0 <= j < |rest| ensures Get(rep, s[0]) >= Get(rep, rest[j]) {
        assert rest[j] in multiset(rest);
      }
    }
  }

  lemma {:induction false} RankedDescending(s: seq<Address>, rep: Reputations)
    ensures Descending(Ranked(s, rep), rep)
  {
    if s != [] {
      RankedDescending(s[1..], rep);
      InsertDescending(s[0], Ranked(s[1..], rep), rep);
    }
  }

  lemma {:induction false} InsertStable(a: Address, s: seq<Address>, rep: Reputations, v: Uint256)
    requires Descending(s, rep)
    ensures WithReputation(Insert(a, s, rep), rep, v) == WithReputation([a] + s, rep, v)
  {
    if s != [] && Get(rep, s[0]) > Get(rep, a) {
      InsertStable(a, s[1..], rep, v);
      assert ([a] + s)[1..] == s;
      assert ([a] + s[1..])[1..] == s[1..];
    }
  }

  lemma {:induction false} RankedStableAt(s: seq<Address>, rep: Reputations, v: Uint256)
    ensures WithReputation(Ranked(s, rep), rep, v) == WithReputation(s, rep, v)
  {
    if s != [] {
      var rest := Ranked(s[1..], rep);
      RankedStableAt(s[1..], rep, v);
      RankedDescending(s[1..], rep);
      InsertStable(s[0], rest, rep, v);
      assert ([s[0]] + rest)[1..] == rest;
    }
  }

  lemma RankedStable(s: seq<Address>, rep: Reputations)
    ensures Stable(Ranked(s, rep), s, rep)
  {
    forall v: Uint256 ensures WithReputation(Ranked(s, rep), rep, v) == WithReputation(s, rep, v) {
      RankedStableAt(s, rep, v);
    }
  }

  lemma {:induction false} NobodyAbove(s: seq<Address>, rep: Reputations, v: Uint256)
    requires forall i :: 0 <= i < |s| ==> Get(rep, s[i]) < v
    ensures WithReputation(s, rep, v) == []
  {
    if s != [] {
      NobodyAbove(s[1..], rep, v);
    }
  }

  /** Two descending sequences that agree within every reputation are the same. */
  lemma {:induction false} RankingUnique(s: seq<Address>, t: seq<Address>, rep: Reputations)
    requires Descending(s, rep) && Descending(t, rep) && Stable(s, t, rep)
    ensures s == t
    decreases |s|
  {
    EmptyTogether(s, t, rep);
    if s != [] {
      SameHead(s, t, rep);
      forall v: Uint256 ensures WithReputation(s[1..], rep, v) == WithReputation(t[1..], rep, v) {
        assert WithReputation(s, rep, v) == WithReputation(t, rep, v);
        WithoutHead(s, rep, v);
        WithoutHead(t, rep, v);
      }
      RankingUnique(s[1..], t[1..], rep);
    }
  }

  lemma EmptyTogether(s: seq<Address>, t: seq<Address>, rep: Reputations)
    requires Stable(s, t, rep)
    ensures s == [] <==> t == []
  {
    if s != [] {
      assert WithReputation(s, rep, Get(rep, s[0])) == WithReputation(t, rep, Get(rep, s[0]));
    }
    if t != [] {
      assert WithReputation(s, rep, Get(rep, t[0])) == WithReputation(t, rep, Get(rep, t[0]));
    }
  }

  lemma SameHead(s: seq<Address>, t: seq<Address>, rep: Reputations)
    requires s != [] && t != []
    requires Descending(s, rep) && Descending(t, rep) && Stable(s, t, rep)
    ensures s[0] == t[0]
  {
    var u, v := Get(rep, s[0]), Get(rep, t[0]);
    assert WithReputation(s, rep, u) == WithReputation(t, rep, u);
    assert WithReputation(s, rep, v) == WithReputation(t, rep, v);
    if u > v {
      NobodyAbove(t, rep, u);
    } else if u < v {
      NobodyAbove(s, rep, v);
    } else {
      assert WithReputation(s, rep, u)[0] == s[0] && WithReputation(t, rep, u)[0] == t[0];
    }
  }

  lemma WithoutHead(s: seq<Address>, rep: Reputations, v: Uint256)
    requires s != []
    ensures WithReputation(s[1..], rep, v)
         == if Get(rep, s[0]) == v then WithReputation(s, rep, v)[1..] else WithReputation(s, rep, v)
  {
  }

  /** Whatever is descending and stable with respect to the members is their ranking. */
  lemma RankedCharacterized(members: seq<Address>, s: seq<Address>, rep: Reputations)
    ensures Descending(s, rep) && Stable(s, members, rep) <==> s == Ranked(members, rep)
  {
    RankedDescending(members, rep);
    RankedStable(members, rep);
    if Descending(s, rep) && Stable(s, members, rep) {
      forall v: Uint256 ensures WithReputation(s, rep, v) == WithReputation(Ranked(members, rep), rep, v) {
        RankedStableAt(members, rep, v);
      }
      RankingUnique(s, Ranked(members, rep), rep);
    }
  }

  // ----- who comes before whom

  lemma InsertIn(a: Address, s: seq<Address>, rep: Reputations, x: Address)
    ensures x in Insert(a, s, rep) <==> x == a || x in s
  {
    InsertMultiset(a, s, rep);
    assert x in multiset(Insert(a, s, rep)) <==> x in Insert(a, s, rep);
  }

  lemma RankedIn(s: seq<Address>, rep: Reputations, x: Address)
    ensures x in Ranked(s, rep) <==> x in s
  {
    RankedPermutes(s, rep);
    assert x in multiset(Ranked(s, rep)) <==> x in multiset(s);
  }

  lemma {:induction false} InsertDistinct(a: Address, s: seq<Address>, rep: Reputations)
    requires Distinct(s) && a !in s
    ensures Distinct(Insert(a, s, rep))
  {
    if s != [] && Get(rep, s[0]) > Get(rep, a) {
      InsertDistinct(a, s[1..], rep);
      InsertIn(a, s[1..], rep, s[0]);
    }
  }

  lemma {:induction false} RankedDistinct(s: seq<Address>, rep: Reputations)
    requires Distinct(s)
    ensures Distinct(Ranked(s, rep))
  {
    if s != [] {
      RankedDistinct(s[1..], rep);
      RankedIn(s[1..], rep, s[0]);
      InsertDistinct(s[0], Ranked(s[1..], rep), rep);
    }
  }

  lemma {:induction false} InsertBefore(a: Address, s: seq<Address>, rep: Reputations, x: Address, y: Address)
    requires Descending(s, rep) && a !in s && x != y
    ensures Before(Insert(a, s, rep), x, y) <==>
            if x == a then y in s && Get(rep, y) <= Get(rep, a)
            else if y == a then x in s && Get(rep, x) > Get(rep, a)
            else Before(s, x, y)
  {
    if s != [] && Get(rep, s[0]) > Get(rep, a) {
      InsertBefore(a, s[1..], rep, x, y);
      InsertIn(a, s[1..], rep, y);
    } else {
      assert ([a] + s)[1..] == s;
      BeforeIn(s, x, y);
      forall z | z in s ensures Get(rep, z) <= Get(rep, a) {
        var i :| 0 <= i < |s| && s[i] == z;
        assert Get(rep, s[0]) >= Get(rep, s[i]);
      }
    }
  }

  /** A reporter ranks ahead of another by reputation, and among equals by joining first. */
  lemma {:induction false} RankedBefore(s: seq<Address>, rep: Reputations, x: Address, y: Address)
    requires Distinct(s) && x in s && y in s && x != y
    ensures Before(Ranked(s, rep), x, y)
       <==> Get(rep, x) > Get(rep, y) || (Get(rep, x) == Get(rep, y) && Before(s, x, y))
  {
    RankedDescending(s[1..], rep);
    RankedIn(s[1..], rep, s[0]);
    RankedIn(s[1..], rep, x);
    RankedIn(s[1..], rep, y);
    InsertBefore(s[0], Ranked(s[1..], rep), rep, x, y);
    BeforeIn(s[1..], x, y);
    if x != s[0] && y != s[0] {
      RankedBefore(s[1..], rep, x, y);
    }
  }

  // ----- the bubble sort

  lemma {:induction false} WithReputationConcat(s: seq<Address>, t: seq<Address>, rep: Reputations, v: Uint256)
    ensures WithReputation(s + t, rep, v) == WithReputation(s, rep, v) + WithReputation(t, rep, v)
  {
    if s == [] {
      assert s + t == t;
    } else {
      assert (s + t)[1..] == s[1..] + t;
      WithReputationConcat(s[1..], t, rep, v);
    }
  }

  lemma SwapStable(s: seq<Address>, j: nat, rep: Reputations)
    requires j + 1 < |s| && Get(rep, s[j]) != Get(rep, s[j + 1])
    ensures Stable(s[j := s[j + 1]][j + 1 := s[j]], s, rep)
  {
    var t := s[j := s[j + 1]][j + 1 := s[j]];
    forall v: Uint256 ensures WithReputation(t, rep, v) == WithReputation(s, rep, v) {
      assert s == s[..j] + ([s[j], s[j + 1]] + s[j + 2..]);
      assert t == s[..j] + ([s[j + 1], s[j]] + s[j + 2..]);
      WithReputationConcat(s[..j], [s[j], s[j + 1]] + s[j + 2..], rep, v);
      WithReputationConcat(s[..j], [s[j + 1], s[j]] + s[j + 2..], rep, v);
      WithReputationConcat([s[j], s[j + 1]], s[j + 2..], rep, v);
      WithReputationConcat([s[j + 1], s[j]], s[j + 2..], rep, v);
      SwapPair(s[j], s[j + 1], rep, v);
    }
  }

  lemma SwapPair(x: Address, y: Address, rep: Reputations, v: Uint256)
    requires Get(rep, x) != Get(rep, y)
    ensures WithReputation([x, y], rep, v) == WithReputation([y, x], rep, v)
  {
    assert [x, y][1..] == [y] && [y, x][1..] == [x];
  }

  method BubbleSort(reporters: array<Address>, rep: Reputations)
    requires reporters.Length > 0
    modifies reporters
    ensures reporters[..] == Ranked(old(reporters[..]), rep)
  {
    var n := reporters.Length;
    ghost var members := reporters[..];
    for i := 0 to n - 1
      invariant Stable(reporters[..], members, rep)
      invariant forall p, q :: 0 <= p < q < n && n - i <= q ==> Get(rep, reporters[p]) >= Get(rep, reporters[q])
    {
      for j := 0 to n - i - 1
        invariant Stable(reporters[..], members, rep)
        invariant forall p, q :: 0 <= p < q < n && n - i <= q ==> Get(rep, reporters[p]) >= Get(rep, reporters[q])
        invariant forall p :: 0 <= p <= j ==> Get(rep, reporters[p]) >= Get(rep, reporters[j])
      {
        if Get(rep, reporters[j + 1]) > Get(rep, reporters[j]) {
          SwapStable(reporters[..], j, rep);
          ghost var swapped := reporters[..][j := reporters[j + 1]][j + 1 := reporters[j]];
          reporters[j], reporters[j + 1] := reporters[j + 1], reporters[j];
          assert reporters[..] == swapped;
        }
      }
    }
    RankedCharacterized(members, reporters[..], rep);
  }
}
