/** The node list of LogStoreNodeManager: a doubly linked list threaded through a mapping. */
module Registry {
  import opened Evm
  import opened Sequences

  datatype Node = Node(
    index: Uint256, metadata: Bytes, lastSeen: Uint256, next: Address, prev: Address, stake: Uint256
  )

  const UNSET := Node(0, [], 0, NO_ADDRESS, NO_ADDRESS, 0)

  type Nodes = map<Address, Node>

  datatype List = List(
    nodes: Nodes, headNode: Address, tailNode: Address, totalNodes: Uint256, startBlockNumber: Uint256
  )

  const EMPTY := List(map[], NO_ADDRESS, NO_ADDRESS, 0, 0)

  function At(nodes: Nodes, a: Address): Node {
    if a in nodes then nodes[a] else UNSET
  }

  function LinkBehind(nodes: Nodes, tail: Address, a: Address, index: Uint256): Nodes {
    var nodes1 := nodes[tail := At(nodes, tail).(next := a)];
    nodes1[a := At(nodes1, a).(prev := tail, index := index)]
  }

  /** Lines 315-327: link an unknown node behind the tail. */
  function Append(r: List, block: Block, a: Address): Outcome<List> {
    var total :- Add(r.totalNodes, 1);
    if r.headNode == NO_ADDRESS then
      Ok(r.(headNode := a, startBlockNumber := block.number, tailNode := a, totalNodes := total))
    else
      Ok(r.(nodes := LinkBehind(r.nodes, r.tailNode, a, r.totalNodes), tailNode := a, totalNodes := total))
  }

  function Touch(r: List, block: Block, a: Address, metadata: Bytes): List {
    r.(nodes := r.nodes[a := At(r.nodes, a).(metadata := metadata, lastSeen := block.timestamp)])
  }

  function Upsert(r: List, block: Block, a: Address, metadata: Bytes): Outcome<List> {
    if At(r.nodes, a).lastSeen == 0 then
      var appended :- Append(r, block, a);
      Ok(Touch(appended, block, a, metadata))
    else
      Ok(Touch(r, block, a, metadata))
  }

  /** Lines 340-345. Each write is visible to the reads after it, as storage references demand. */
  function Bypassed(nodes: Nodes, a: Address): Nodes {
    var prev := At(nodes, a).prev;
    var nodes1 := if prev == NO_ADDRESS then nodes else nodes[prev := At(nodes, prev).(next := At(nodes, a).next)];
    var next := At(nodes1, a).next;
    if next == NO_ADDRESS then nodes1 else nodes1[next := At(nodes1, next).(prev := At(nodes1, a).prev)]
  }

  function Unlinked(nodes: Nodes, a: Address): Nodes {
    Bypassed(nodes, a)[a := UNSET]
  }

  /** The node is deleted before its successors are re-indexed, so there are none to be found. */
  function Remove(r: List, a: Address): Outcome<List> {
    var _ :- Require(At(r.nodes, a).lastSeen != 0, "error_notFound");
    var bypassed := Bypassed(r.nodes, a);
    var head := if r.headNode == a then At(bypassed, a).next else r.headNode;
    var tail := if r.tailNode == a then At(bypassed, a).prev else r.tailNode;
    var total :- Sub(r.totalNodes, 1);
    Ok(List(bypassed[a := UNSET], head, tail, total, if head == NO_ADDRESS then 0 else r.startBlockNumber))
  }

  function WithStake(r: List, a: Address, stake: Uint256): List {
    r.(nodes := r.nodes[a := At(r.nodes, a).(stake := stake)])
  }

  function Zeros(n: nat): (s: seq<Address>)
    ensures |s| == n
    ensures forall i :: 0 <= i < n ==> s[i] == NO_ADDRESS
  {
    seq(n, _ => NO_ADDRESS)
  }

  /** The array that `nodeAddresses` fills from `cursor` on while it has `room` slots left. */
  function Walk(nodes: Nodes, cursor: Address, room: nat): Outcome<seq<Address>>
    decreases room
  {
    if cursor == NO_ADDRESS then Ok(Zeros(room))
    else if room == 0 then Revert(PANIC_INDEX)
    else
      var rest :- Walk(nodes, At(nodes, cursor).next, room - 1);
      Ok([cursor] + rest)
  }

  /** `s` in front of the result. */
  function Prepend(s: seq<Address>, r: Outcome<seq<Address>>): Outcome<seq<Address>> {
    match r
    case Ok(rest) => Ok(s + rest)
    case Revert(why) => Revert(why)
  }

  lemma PrependNone(r: Outcome<seq<Address>>)
    ensures Prepend([], r) == r
  {
    if r.Ok? {
      assert [] + r.value == r.value;
    }
  }

  lemma PrependOne(s: seq<Address>, a: Address, r: Outcome<seq<Address>>)
    ensures Prepend(s + [a], r) == Prepend(s, Prepend([a], r))
  {
    if r.Ok? {
      assert s + [a] + r.value == s + ([a] + r.value);
    }
  }

  function NodeAddresses(r: List): Outcome<seq<Address>> {
    Walk(r.nodes, r.headNode, r.totalNodes)
  }

  // ----- the sequence that the list stands for

  function Neighbour(order: seq<Address>, i: int): Address {
    if 0 <= i < |order| then order[i] else NO_ADDRESS
  }

  /** The node at position `i` knows its neighbours; its stored index is no less than `i`. */
  ghost predicate Threads(nodes: Nodes, order: seq<Address>, i: nat)
    requires i < |order|
  {
    var n := At(nodes, order[i]);
    && n.lastSeen != 0
    && n.next == Neighbour(order, i + 1)
    && n.prev == Neighbour(order, i - 1)
    && n.index >= i
  }

  ghost predicate Threaded(nodes: Nodes, order: seq<Address>) {
    forall i :: 0 <= i < |order| ==> Threads(nodes, order, i)
  }

  ghost predicate Detached(n: Node) {
    n.lastSeen == 0 && n.next == NO_ADDRESS && n.prev == NO_ADDRESS && n.index == 0
  }

  /** `r` represents the registered nodes in the order of their registration. */
  ghost predicate Represents(r: List, order: seq<Address>) {
    && NO_ADDRESS !in order
    && Distinct(order)
    && Threaded(r.nodes, order)
    && (forall a: Address :: a !in order ==> Detached(At(r.nodes, a)))
    && r.headNode == Neighbour(order, 0)
    && r.tailNode == Neighbour(order, |order| - 1)
    && r.totalNodes == |order|
    && (r.startBlockNumber == 0 <==> order == [])
  }

  ghost predicate IsList(r: List) {
    exists order :: Represents(r, order)
  }

  function Registered(order: seq<Address>, a: Address): seq<Address> {
    if a in order then order else order + [a]
  }

  function Without(order: seq<Address>, a: Address): seq<Address> {
    if order == [] then []
    else if order[0] == a then order[1..]
    else [order[0]] + Without(order[1..], a)
  }

  lemma WithoutAt(order: seq<Address>, k: nat)
    requires k < |order| && Distinct(order)
    ensures Without(order, order[k]) == order[..k] + order[k + 1..]
    ensures order[k] !in Without(order, order[k])
    ensures Distinct(Without(order, order[k]))
  {
    WithoutIsRest(order, k);
    WithoutDistinct(order, order[k]);
  }

  lemma {:induction false} WithoutIsRest(order: seq<Address>, k: nat)
    requires k < |order| && Distinct(order)
    ensures Without(order, order[k]) == order[..k] + order[k + 1..]
  {
    if k > 0 {
      var a, rest := order[k], order[1..];
      assert rest[k - 1] == a && rest[..k - 1] == order[1..k] && rest[k..] == order[k + 1..];
      WithoutIsRest(rest, k - 1);
      DistinctAt(order, 0, k);
      assert Without(order, a) == [order[0]] + (order[1..k] + order[k + 1..]);
      assert order[..k] == [order[0]] + order[1..k];
    }
  }

  lemma {:induction false} WithoutDistinct(order: seq<Address>, a: Address)
    requires Distinct(order)
    ensures a !in Without(order, a) && Distinct(Without(order, a))
  {
    if order != [] && order[0] != a {
      WithoutDistinct(order[1..], a);
      WithoutFewer(order[1..], a, order[0]);
    }
  }

  lemma {:induction false} WithoutFewer(order: seq<Address>, a: Address, x: Address)
    ensures x in Without(order, a) ==> x in order
    ensures x in order && x != a ==> x in Without(order, a)
  {
    if order != [] && order[0] != a {
      WithoutFewer(order[1..], a, x);
    }
  }

  lemma UpsertRepresents(r: List, order: seq<Address>, block: Block, a: Address, metadata: Bytes)
    requires Represents(r, order)
    requires a != NO_ADDRESS && block.timestamp > 0 && (order != [] || block.number > 0)
    requires Upsert(r, block, a, metadata).Ok?
    ensures Represents(Upsert(r, block, a, metadata).value, Registered(order, a))
  {
    if a in order {
      TouchRepresents(r, order, block, a, metadata);
    } else {
      AppendRepresents(r, order, block, a, metadata);
    }
  }

  lemma TouchRepresents(r: List, order: seq<Address>, block: Block, a: Address, metadata: Bytes)
    requires Represents(r, order) && a in order && block.timestamp > 0
    ensures At(r.nodes, a).lastSeen != 0
    ensures Represents(Touch(r, block, a, metadata), order)
  {
    var nodes' := Touch(r, block, a, metadata).nodes;
    forall i | 0 <= i < |order| ensures Threads(nodes', order, i) {
      assert Threads(r.nodes, order, i);
    }
    var k :| 0 <= k < |order| && order[k] == a;
    assert Threads(r.nodes, order, k);
  }

  lemma AppendRepresents(r: List, order: seq<Address>, block: Block, a: Address, metadata: Bytes)
    requires Represents(r, order) && a !in order
    requires a != NO_ADDRESS && block.timestamp > 0 && (order != [] || block.number > 0)
    requires Upsert(r, block, a, metadata).Ok?
    ensures Represents(Upsert(r, block, a, metadata).value, order + [a])
  {
    var order' := order + [a];
    DistinctAppend(order, a);
    var nodes' := Upsert(r, block, a, metadata).value.nodes;
    forall i | 0 <= i < |order'| ensures Threads(nodes', order', i) {
      if i < |order| {
        assert Threads(r.nodes, order, i);
        assert order'[i] == order[i] && order[i] != a;
        DistinctAt(order, i, |order| - 1);
      }
    }
  }

  /** The list survives an upsert exactly if the owner did not register the zero address (and the
      block has a number and a time); nothing in the code rules that address out. */
  lemma UpsertKeepsListIff(r: List, order: seq<Address>, block: Block, a: Address, metadata: Bytes)
    requires Represents(r, order)
    requires Upsert(r, block, a, metadata).Ok?
    ensures IsList(Upsert(r, block, a, metadata).value)
       <==> a != NO_ADDRESS && block.timestamp > 0 && (order != [] || block.number > 0)
  {
    var r' := Upsert(r, block, a, metadata).value;
    if a != NO_ADDRESS && block.timestamp > 0 && (order != [] || block.number > 0) {
      UpsertRepresents(r, order, block, a, metadata);
    } else if order': seq<Address> :| Represents(r', order') {
      if a in order {
        RegisteredSeen(r, order, a);
      }
      if a != NO_ADDRESS && block.timestamp == 0 {
        StillLinked(r, order, block, a, metadata, order');
        RegisteredSeen(r', order', a);
      }
    }
  }

  /** The owner registers the zero address first: the list has one node and no head. */
  lemma ZeroAddressLosesList(block: Block)
    requires block.timestamp > 0 && block.number > 0
    ensures Represents(EMPTY, []) && Upsert(EMPTY, block, NO_ADDRESS, []).Ok?
    ensures !IsList(Upsert(EMPTY, block, NO_ADDRESS, []).value)
  {
    assert Represents(EMPTY, []);
    UpsertKeepsListIff(EMPTY, [], block, NO_ADDRESS, []);
  }

  lemma RegisteredSeen(r: List, order: seq<Address>, a: Address)
    requires Represents(r, order)
    ensures a in order <==> At(r.nodes, a).lastSeen != 0
  {
    if a in order {
      var k :| 0 <= k < |order| && order[k] == a;
      assert Threads(r.nodes, order, k);
    }
  }

  lemma StillLinked(r: List, order: seq<Address>, block: Block, a: Address, metadata: Bytes, order': seq<Address>)
    requires Represents(r, order) && Upsert(r, block, a, metadata).Ok?
    requires a != NO_ADDRESS
    requires Represents(Upsert(r, block, a, metadata).value, order')
    ensures a in order'
  {
    var r' := Upsert(r, block, a, metadata).value;
    if a in order {
      var k :| 0 <= k < |order| && order[k] == a;
      if k == 0 {
        assert r'.headNode == a;
      } else {
        assert Threads(r.nodes, order, k - 1) && Threads(r.nodes, order, k);
        PointedAtInList(r', order', order[k - 1]);
      }
    } else {
      assert r'.tailNode == a;
    }
  }

  lemma PointedAtInList(r: List, order: seq<Address>, x: Address)
    requires Represents(r, order) && At(r.nodes, x).next != NO_ADDRESS
    ensures At(r.nodes, x).next in order
  {
    var i :| 0 <= i < |order| && order[i] == x;
    assert Threads(r.nodes, order, i);
  }

  lemma RemoveRepresents(r: List, order: seq<Address>, a: Address)
    requires Represents(r, order)
    ensures a !in order ==> Remove(r, a) == Revert("error_notFound")
    ensures a in order ==> Remove(r, a).Ok? && Represents(Remove(r, a).value, Without(order, a))
  {
    if a in order {
      var k :| 0 <= k < |order| && order[k] == a;
      RemoveAt(r, order, k);
    }
  }

  /** What unlinking `a` leaves at another address. */
  function Relinked(nodes: Nodes, a: Address, x: Address): Node {
    At(nodes, x).(
    next := if x == At(nodes, a).prev then At(nodes, a).next else At(nodes, x).next,
    prev := if x == At(nodes, a).next then At(nodes, a).prev else At(nodes, x).prev)
  }

  ghost predicate UnlinkedFrom(nodes: Nodes, a: Address, nodes': Nodes) {
    forall x: Address :: x != NO_ADDRESS ==> At(nodes', x) == if x == a then UNSET else Relinked(nodes, a, x)
  }

  lemma UnlinkedAt(nodes: Nodes, a: Address)
    requires At(nodes, a).prev != a && At(nodes, a).next != a
    ensures At(Bypassed(nodes, a), a) == At(nodes, a)
    ensures UnlinkedFrom(nodes, a, Unlinked(nodes, a))
    ensures a != NO_ADDRESS ==> At(Unlinked(nodes, a), NO_ADDRESS) == At(nodes, NO_ADDRESS)
  {
  }

  /** The ends of the list once the node at position `k` is gone. */
  function HeadWithout(order: seq<Address>, k: nat): Address {
    Neighbour(order, if k == 0 then 1 else 0)
  }

  function TailWithout(order: seq<Address>, k: nat): Address {
    Neighbour(order, if k == |order| - 1 then k - 1 else |order| - 1)
  }

  lemma RemoveAt(r: List, order: seq<Address>, k: nat)
    requires Represents(r, order) && k < |order|
    ensures Remove(r, order[k]).Ok?
    ensures Represents(Remove(r, order[k]).value, Without(order, order[k]))
  {
    EndsAfterRemoval(r, order, k);
    RemovedRepresents(r, order, k, Remove(r, order[k]).value);
  }

  lemma RemovedRepresents(r: List, order: seq<Address>, k: nat, r': List)
    requires Represents(r, order) && k < |order|
    requires r'.nodes == Unlinked(r.nodes, order[k])
    requires r'.headNode == HeadWithout(order, k) && r'.tailNode == TailWithout(order, k)
    requires r'.totalNodes == |order| - 1 && (r'.startBlockNumber == 0 <==> |order| == 1)
    ensures Represents(r', Without(order, order[k]))
  {
    var rest := Without(order, order[k]);
    RestLinked(r.nodes, order, k, r'.nodes);
    RestEnds(order, k);
    assert r'.headNode == Neighbour(rest, 0) && r'.tailNode == Neighbour(rest, |rest| - 1);
  }

  /** The links between the nodes that stay, and the blank record of every other address. */
  lemma RestLinked(nodes: Nodes, order: seq<Address>, k: nat, nodes': Nodes)
    requires NO_ADDRESS !in order && Distinct(order) && Threaded(nodes, order) && k < |order|
    requires forall x: Address :: x !in order ==> Detached(At(nodes, x))
    requires nodes' == Unlinked(nodes, order[k])
    ensures Threaded(nodes', Without(order, order[k]))
    ensures forall x: Address :: x !in Without(order, order[k]) ==> Detached(At(nodes', x))
  {
    NotItsOwnNeighbour(nodes, order, k);
    assert Threads(nodes, order, k);
    UnlinkedAt(nodes, order[k]);
    WithoutAt(order, k);
    UnlinkedThreaded(nodes, order, k, nodes');
    UnlinkedDetached(nodes, order, k, nodes');
  }

  lemma RestEnds(order: seq<Address>, k: nat)
    requires NO_ADDRESS !in order && Distinct(order) && k < |order|
    ensures var rest := Without(order, order[k]);
            && NO_ADDRESS !in rest && Distinct(rest) && |rest| == |order| - 1
            && Neighbour(rest, 0) == HeadWithout(order, k)
            && Neighbour(rest, |rest| - 1) == TailWithout(order, k)
  {
    WithoutAt(order, k);
    WithoutFewer(order, order[k], NO_ADDRESS);
    EndsOfRest(order, k);
  }

  lemma EndsAfterRemoval(r: List, order: seq<Address>, k: nat)
    requires Represents(r, order) && k < |order|
    ensures Remove(r, order[k]).Ok?
    ensures var r' := Remove(r, order[k]).value;
            && r'.nodes == Unlinked(r.nodes, order[k])
            && r'.headNode == HeadWithout(order, k)
            && r'.tailNode == TailWithout(order, k)
            && r'.totalNodes == |order| - 1
            && (r'.startBlockNumber == 0 <==> |order| == 1)
  {
    assert Threads(r.nodes, order, k);
    NotItsOwnNeighbour(r.nodes, order, k);
    UnlinkedAt(r.nodes, order[k]);
    DistinctAt(order, 0, k);
    DistinctAt(order, |order| - 1, k);
  }

  lemma EndsOfRest(order: seq<Address>, k: nat)
    requires k < |order|
    ensures var rest := order[..k] + order[k + 1..];
            Neighbour(rest, 0) == HeadWithout(order, k) && Neighbour(rest, |rest| - 1) == TailWithout(order, k)
  {
  }

  lemma NotItsOwnNeighbour(nodes: Nodes, order: seq<Address>, k: nat)
    requires NO_ADDRESS !in order && Distinct(order) && Threaded(nodes, order) && k < |order|
    ensures At(nodes, order[k]).prev != order[k] && At(nodes, order[k]).next != order[k]
  {
    assert Threads(nodes, order, k);
    if k > 0 {
      DistinctAt(order, k - 1, k);
    }
    if k + 1 < |order| {
      DistinctAt(order, k + 1, k);
    }
  }

  lemma UnlinkedDetached(nodes: Nodes, order: seq<Address>, k: nat, nodes': Nodes)
    requires NO_ADDRESS !in order && Distinct(order) && Threaded(nodes, order) && k < |order|
    requires UnlinkedFrom(nodes, order[k], nodes') && At(nodes', NO_ADDRESS) == At(nodes, NO_ADDRESS)
    requires forall x: Address :: x !in order ==> Detached(At(nodes, x))
    ensures forall x: Address :: x !in Without(order, order[k]) ==> Detached(At(nodes', x))
  {
    forall x: Address | x !in Without(order, order[k]) ensures Detached(At(nodes', x)) {
      WithoutFewer(order, order[k], x);
      if x != order[k] && x != NO_ADDRESS {
        assert Threads(nodes, order, k);
        assert x !in order && Relinked(nodes, order[k], x) == At(nodes, x);
      }
    }
  }

  lemma UnlinkedThreaded(nodes: Nodes, order: seq<Address>, k: nat, nodes': Nodes)
    requires NO_ADDRESS !in order && Distinct(order) && Threaded(nodes, order) && k < |order|
    requires UnlinkedFrom(nodes, order[k], nodes')
    ensures Threaded(nodes', order[..k] + order[k + 1..])
  {
    var rest := order[..k] + order[k + 1..];
    forall i | 0 <= i < |rest| ensures Threads(nodes', rest, i) {
      NeighboursInRest(order, k, i);
      RestThreads(nodes, order, k, i, nodes', rest);
    }
  }

  lemma RestThreads(nodes: Nodes, order: seq<Address>, k: nat, i: nat, nodes': Nodes, rest: seq<Address>)
    requires NO_ADDRESS !in order && Distinct(order) && Threaded(nodes, order)
    requires k < |order| && i < |order| - 1 && |rest| == |order| - 1
    requires var j := if i < k then i else i + 1;
             && rest[i] == order[j]
             && Neighbour(rest, i + 1) == Neighbour(order, if j == k - 1 then k + 1 else j + 1)
             && Neighbour(rest, i - 1) == Neighbour(order, if j == k + 1 then k - 1 else j - 1)
    requires UnlinkedFrom(nodes, order[k], nodes')
    ensures Threads(nodes', rest, i)
  {
    var j: nat := if i < k then i else i + 1;
    UnlinkedEntry(nodes, order, k, j, nodes');
  }

  lemma NeighboursInRest(order: seq<Address>, k: nat, i: nat)
    requires k < |order| && i < |order| - 1
    ensures var rest := order[..k] + order[k + 1..];
            var j := if i < k then i else i + 1;
            && rest[i] == order[j]
            && Neighbour(rest, i + 1) == Neighbour(order, if j == k - 1 then k + 1 else j + 1)
            && Neighbour(rest, i - 1) == Neighbour(order, if j == k + 1 then k - 1 else j - 1)
  {
  }

  lemma UnlinkedEntry(nodes: Nodes, order: seq<Address>, k: nat, j: nat, nodes': Nodes)
    requires NO_ADDRESS !in order && Distinct(order) && Threaded(nodes, order)
    requires k < |order| && j < |order| && j != k
    requires UnlinkedFrom(nodes, order[k], nodes')
    ensures var n := At(nodes', order[j]);
            && n.lastSeen != 0 && n.index >= j
            && n.next == Neighbour(order, if j == k - 1 then k + 1 else j + 1)
            && n.prev == Neighbour(order, if j == k + 1 then k - 1 else j - 1)
  {
    assert Threads(nodes, order, k) && Threads(nodes, order, j);
    DistinctAt(order, j, k);
    if k > 0 {
      DistinctAt(order, j, k - 1);
    }
    if k + 1 < |order| {
      DistinctAt(order, j, k + 1);
    }
  }

  lemma StakeRepresents(r: List, order: seq<Address>, a: Address, stake: Uint256)
    requires Represents(r, order)
    ensures Represents(WithStake(r, a, stake), order)
  {
    forall i | 0 <= i < |order| ensures Threads(WithStake(r, a, stake).nodes, order, i) {
      assert Threads(r.nodes, order, i);
    }
  }

  /** `nodeAddresses` stays inside its array and returns the nodes in the order of registration. */
  lemma NodeAddressesInOrder(r: List, order: seq<Address>)
    requires Represents(r, order)
    ensures NodeAddresses(r) == Ok(order)
  {
    WalkFrom(r.nodes, order, 0);
  }

  lemma {:induction false} WalkFrom(nodes: Nodes, order: seq<Address>, i: nat)
    requires NO_ADDRESS !in order && Threaded(nodes, order) && i <= |order|
    ensures Walk(nodes, Neighbour(order, i), |order| - i) == Ok(order[i..])
    decreases |order| - i
  {
    if i < |order| {
      assert Threads(nodes, order, i);
      WalkFrom(nodes, order, i + 1);
      assert order[i..] == [order[i]] + order[i + 1..];
    } else {
      assert Zeros(0) == order[i..];
    }
  }

  /** Following `prev` from the tail visits the same nodes backwards. */
  function WalkBack(nodes: Nodes, cursor: Address, room: nat): Outcome<seq<Address>>
    decreases room
  {
    if cursor == NO_ADDRESS then Ok(Zeros(room))
    else if room == 0 then Revert(PANIC_INDEX)
    else
      var rest :- WalkBack(nodes, At(nodes, cursor).prev, room - 1);
      Ok(rest + [cursor])
  }

  lemma {:induction false} WalkBackMirrors(nodes: Nodes, order: seq<Address>, i: nat)
    requires NO_ADDRESS !in order && Threaded(nodes, order) && i <= |order|
    ensures WalkBack(nodes, Neighbour(order, i - 1), i) == Ok(order[..i])
  {
    if i > 0 {
      assert Threads(nodes, order, i - 1);
      WalkBackMirrors(nodes, order, i - 1);
      assert order[..i] == order[..i - 1] + [order[i - 1]];
    } else {
      assert Zeros(0) == order[..i];
    }
  }

  /** A list represents one sequence only. */
  lemma RepresentsUnique(r: List, order: seq<Address>, order': seq<Address>)
    requires Represents(r, order) && Represents(r, order')
    ensures order == order'
  {
    NodeAddressesInOrder(r, order);
    NodeAddressesInOrder(r, order');
  }

  // ----- a node that comes and goes

  ghost predicate SameNodes(nodes: Nodes, nodes': Nodes) {
    forall x: Address :: At(nodes', x) == At(nodes, x)
  }

  /** What appending leaves at each address. */
  lemma AppendedAt(r: List, order: seq<Address>, block: Block, a: Address, metadata: Bytes, r': List)
    requires Represents(r, order) && At(r.nodes, a) == UNSET
    requires Upsert(r, block, a, metadata) == Ok(r')
    ensures r'.tailNode == a && r'.totalNodes == r.totalNodes + 1
    ensures r'.headNode == if order == [] then a else r.headNode
    ensures order != [] ==> r'.startBlockNumber == r.startBlockNumber
    ensures At(r'.nodes, a).prev == r.tailNode && At(r'.nodes, a).next == NO_ADDRESS
    ensures At(r'.nodes, a).lastSeen == block.timestamp && At(r'.nodes, a).stake == 0
    ensures forall x: Address :: x != a ==>
              At(r'.nodes, x) == if order != [] && x == r.tailNode then At(r.nodes, x).(next := a) else At(r.nodes, x)
  {
    if order != [] {
      assert Threads(r.nodes, order, |order| - 1);
    }
  }

  /** Registering an unknown node and removing it again restores the list word for word, whatever
      happened to stakes in between as long as they are back as well. */
  lemma AppendThenRemove(r: List, order: seq<Address>, block: Block, a: Address, metadata: Bytes, r1: List, r2: List)
    requires Represents(r, order) && At(r.nodes, a) == UNSET
    requires a != NO_ADDRESS && block.timestamp > 0
    requires Upsert(r, block, a, metadata) == Ok(r1)
    requires r2 == r1.(nodes := r2.nodes) && SameNodes(r1.nodes, r2.nodes)
    ensures Remove(r2, a).Ok?
    ensures var r' := Remove(r2, a).value;
            r' == r.(nodes := r'.nodes) && SameNodes(r.nodes, r'.nodes)
  {
    AppendedAt(r, order, block, a, metadata, r1);
    if order != [] {
      assert Threads(r.nodes, order, 0) && Threads(r.nodes, order, |order| - 1);
    }
    assert r.headNode != a && r.tailNode != a;
    UnlinkedAt(r2.nodes, a);
    var nodes' := Unlinked(r2.nodes, a);
    forall x: Address ensures At(nodes', x) == At(r.nodes, x) {
      if x != NO_ADDRESS && x != a {
        assert At(nodes', x) == Relinked(r2.nodes, a, x);
      }
    }
    assert Remove(r2, a).value.nodes == nodes';
  }
}
