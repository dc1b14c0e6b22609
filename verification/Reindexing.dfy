/** What `_removeNode` promises about stored indices, and when it delivers: the loop that would count down the
    successors of the removed node starts from a record that was just deleted. */
module Reindexing {
  import opened Evm
  import opened Registry
  import opened Sequences

  /** Each node's stored index is its position, as the field's name and the loop's comment have it. */
  ghost predicate Indexed(nodes: Nodes, order: seq<Address>) {
    forall i :: 0 <= i < |order| ==> At(nodes, order[i]).index == i
  }

  /** No upsert spoils the indices. */
  lemma UpsertIndexed(r: List, order: seq<Address>, block: Block, a: Address, metadata: Bytes)
    requires Represents(r, order) && Indexed(r.nodes, order)
    requires Upsert(r, block, a, metadata).Ok?
    ensures Indexed(Upsert(r, block, a, metadata).value.nodes, Registered(order, a))
  {
    RegisteredSeen(r, order, a);
    var nodes' := Upsert(r, block, a, metadata).value.nodes;
    forall i | 0 <= i < |order| ensures At(nodes', order[i]).index == i {
      assert At(r.nodes, order[i]).index == i;
    }
  }

  /** Removing any other node but the last leaves stale indices behind. */
  lemma RemoveIndexedIff(r: List, order: seq<Address>, k: nat)
    requires Represents(r, order) && Indexed(r.nodes, order) && k < |order|
    ensures Remove(r, order[k]).Ok?
    ensures Indexed(Remove(r, order[k]).value.nodes, Without(order, order[k])) <==> order[k] == r.tailNode
  {
    EndsAfterRemoval(r, order, k);
    IndicesKept(r, order, k, Remove(r, order[k]).value.nodes);
    WithoutAt(order, k);
    DistinctAt(order, k, |order| - 1);
    if k < |order| - 1 {
      assert Without(order, order[k])[k] == order[k + 1];
      assert At(r.nodes, order[k + 1]).index == k + 1;
    }
  }

  lemma IndicesKept(r: List, order: seq<Address>, k: nat, nodes': Nodes)
    requires Represents(r, order) && k < |order| && nodes' == Unlinked(r.nodes, order[k])
    ensures forall j :: 0 <= j < |order| && j != k ==> At(nodes', order[j]).index == At(r.nodes, order[j]).index
  {
    NotItsOwnNeighbour(r.nodes, order, k);
    UnlinkedAt(r.nodes, order[k]);
    forall j | 0 <= j < |order| && j != k ensures At(nodes', order[j]).index == At(r.nodes, order[j]).index {
      DistinctAt(order, j, k);
      assert At(nodes', order[j]) == Relinked(r.nodes, order[k], order[j]);
    }
  }

  // ----- the loop

  /** `rest` are the nodes that following `next` from `cursor` visits. */
  ghost predicate Follows(nodes: Nodes, cursor: Address, rest: seq<Address>)
    decreases |rest|
  {
    if rest == [] then cursor == NO_ADDRESS
    else cursor == rest[0] && cursor != NO_ADDRESS && Follows(nodes, At(nodes, cursor).next, rest[1..])
  }

  function CountDown(nodes: Nodes, a: Address): Outcome<Nodes> {
    var index :- Sub(At(nodes, a).index, 1);
    Ok(nodes[a := At(nodes, a).(index := index)])
  }

  function Reindexed(nodes: Nodes, rest: seq<Address>): Outcome<Nodes>
    decreases |rest|
  {
    if rest == [] then Ok(nodes) else
    var nodes' :- CountDown(nodes, rest[0]);
    Reindexed(nodes', rest[1..])
  }

  lemma {:induction false} StillFollows(nodes: Nodes, nodes': Nodes, cursor: Address, rest: seq<Address>)
    requires Follows(nodes, cursor, rest)
    requires forall x: Address :: At(nodes', x).next == At(nodes, x).next
    ensures Follows(nodes', cursor, rest)
    decreases |rest|
  {
    if rest != [] {
      StillFollows(nodes, nodes', At(nodes, cursor).next, rest[1..]);
    }
  }

  lemma {:induction false} FollowsFrom(nodes: Nodes, order: seq<Address>, i: nat)
    requires NO_ADDRESS !in order && Threaded(nodes, order) && i <= |order|
    ensures Follows(nodes, Neighbour(order, i), order[i..])
    decreases |order| - i
  {
    if i < |order| {
      assert Threads(nodes, order, i);
      FollowsFrom(nodes, order, i + 1);
      assert order[i..][1..] == order[i + 1..];
    }
  }

  lemma {:induction false} ReindexedAt(nodes: Nodes, rest: seq<Address>)
    requires Distinct(rest) && forall x :: x in rest ==> At(nodes, x).index > 0
    ensures Reindexed(nodes, rest).Ok?
    ensures forall x: Address ::
              At(Reindexed(nodes, rest).value, x).index == At(nodes, x).index - if x in rest then 1 else 0
    decreases |rest|
  {
    if rest != [] {
      var nodes' := CountDown(nodes, rest[0]).value;
      forall x | x in rest[1..] ensures At(nodes', x).index > 0 {
        assert x in rest;
      }
      ReindexedAt(nodes', rest[1..]);
    }
  }

  /** Had the loop started from the successor read before the deletion, it would have visited exactly the nodes
      behind the removed one, without underflow, and every index would be a position again. */
  lemma ReindexRepairs(r: List, order: seq<Address>, k: nat)
    requires Represents(r, order) && Indexed(r.nodes, order) && k < |order|
    ensures Remove(r, order[k]).Ok?
    ensures var nodes' := Remove(r, order[k]).value.nodes;
            && Follows(nodes', At(r.nodes, order[k]).next, order[k + 1..])
            && Reindexed(nodes', order[k + 1..]).Ok?
            && Indexed(Reindexed(nodes', order[k + 1..]).value, Without(order, order[k]))
  {
    EndsAfterRemoval(r, order, k);
    var nodes' := Remove(r, order[k]).value.nodes;
    SuccessorsFollow(r, order, k);
    IndicesKept(r, order, k, nodes');
    CountedDown(nodes', order, k);
    RestIndexed(Reindexed(nodes', order[k + 1..]).value, order, k);
  }

  lemma RestIndexed(nodes: Nodes, order: seq<Address>, k: nat)
    requires Distinct(order) && k < |order|
    requires forall j :: 0 <= j < |order| && j != k ==> At(nodes, order[j]).index == if j < k then j else j - 1
    ensures Indexed(nodes, Without(order, order[k]))
  {
    WithoutAt(order, k);
    var rest := Without(order, order[k]);
    forall i | 0 <= i < |rest| ensures At(nodes, rest[i]).index == i {
      assert rest[i] == order[if i < k then i else i + 1];
    }
  }

  lemma SuccessorsFollow(r: List, order: seq<Address>, k: nat)
    requires Represents(r, order) && k < |order|
    ensures Remove(r, order[k]).Ok?
    ensures Follows(Remove(r, order[k]).value.nodes, At(r.nodes, order[k]).next, order[k + 1..])
  {
    var rest := Without(order, order[k]);
    RemoveAt(r, order, k);
    WithoutAt(order, k);
    assert Threads(r.nodes, order, k);
    FollowsFrom(Remove(r, order[k]).value.nodes, rest, k);
    assert rest[k..] == order[k + 1..];
  }

  lemma CountedDown(nodes: Nodes, order: seq<Address>, k: nat)
    requires Distinct(order) && k < |order|
    requires forall j :: 0 <= j < |order| && j != k ==> At(nodes, order[j]).index == j
    ensures Reindexed(nodes, order[k + 1..]).Ok?
    ensures forall j :: 0 <= j < |order| && j != k ==>
              At(Reindexed(nodes, order[k + 1..]).value, order[j]).index == if j < k then j else j - 1
  {
    var behind := order[k + 1..];
    DistinctSuffix(order, k + 1);
    forall x | x in behind ensures At(nodes, x).index > 0 {
      var j :| k + 1 <= j < |order| && order[j] == x;
    }
    ReindexedAt(nodes, behind);
    forall j | 0 <= j < |order| ensures order[j] in behind <==> k + 1 <= j {
      InSuffix(order, k + 1, j);
    }
  }

  lemma InSuffix(s: seq<Address>, i: nat, j: nat)
    requires Distinct(s) && i <= |s| && j < |s|
    ensures s[j] in s[i..] <==> i <= j
  {
    if i <= j {
      assert s[i..][j - i] == s[j];
    } else if s[j] in s[i..] {
      var m :| i <= m < |s| && s[m] == s[j];
      DistinctAt(s, m, j);
    }
  }

  lemma {:induction false} DistinctSuffix(s: seq<Address>, i: nat)
    requires Distinct(s) && i <= |s|
    ensures Distinct(s[i..])
  {
    if i > 0 {
      DistinctSuffix(s[1..], i - 1);
      assert s[1..][i - 1..] == s[i..];
    } else {
      assert s[0..] == s;
    }
  }
}
