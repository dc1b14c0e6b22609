/** Stored indices along whole runs: they are positions throughout exactly as long as only last nodes are removed. */
module Positions {
  import opened Evm
  import opened Mappings
  import opened NodeManager
  import opened Protocol
  import opened Registry
  import opened Reindexing
  import opened Settlement

  import Reports
  import ReportManager

  /** `r'` is `r` but for the stakes. */
  ghost predicate SameLinks(r: List, r': List) {
    && r' == r.(nodes := r'.nodes)
    && forall a: Address :: At(r'.nodes, a) == At(r.nodes, a).(stake := At(r'.nodes, a).stake)
  }

  lemma SameLinksIndexed(r: List, r': List, order: seq<Address>)
    requires SameLinks(r, r')
    ensures Indexed(r'.nodes, order) <==> Indexed(r.nodes, order)
    ensures Represents(r, order) ==> Represents(r', order)
  {
    forall i | 0 <= i < |order| ensures At(r'.nodes, order[i]).index == At(r.nodes, order[i]).index {
    }
    if Represents(r, order) {
      forall i | 0 <= i < |order| ensures Threads(r'.nodes, order, i) {
        assert Threads(r.nodes, order, i);
      }
    }
  }

  // ----- one transaction

  /** After a removal from a list like `r`, the indices are positions iff it was the last node that went. */
  lemma RemovedIndexed(r: List, r1: List, order: seq<Address>, a: Address, r': List)
    requires Represents(r, order) && Indexed(r.nodes, order)
    requires SameLinks(r, r1) && Remove(r1, a) == Ok(r')
    ensures Indexed(r'.nodes, Without(order, a)) <==> a == r.tailNode
  {
    SameLinksIndexed(r, r1, order);
    RemoveRepresents(r1, order, a);
    var k :| 0 <= k < |order| && order[k] == a;
    RemoveIndexedIff(r1, order, k);
  }

  lemma UpsertedIndexed(r: List, order: seq<Address>, block: Block, a: Address, metadata: Bytes, r1: List, r': List)
    requires Represents(r, order) && Indexed(r.nodes, order)
    requires Upsert(r, block, a, metadata) == Ok(r1) && SameLinks(r1, r')
    ensures Indexed(r'.nodes, Registered(order, a))
  {
    UpsertIndexed(r, order, block, a, metadata);
    SameLinksIndexed(r1, r', Registered(order, a));
  }

  lemma DelegateLinks(st: NodeManager.State, sender: Address, amount: Uint256, node: Address, st': NodeManager.State)
    requires Delegate(st, sender, amount, node) == Ok(st')
    ensures SameLinks(st.list, st'.list)
  {
    assert st'.list == WithStake(st.list, node, StakeOf(st, node) + amount);
  }

  lemma UndelegateLinks(st: NodeManager.State, sender: Address, amount: Uint256, node: Address, st': NodeManager.State)
    requires Undelegate(st, sender, amount, node) == Ok(st')
    ensures SameLinks(st.list, st'.list)
  {
    assert st'.list == WithStake(st.list, node, StakeOf(st, node) - amount);
  }

  lemma StakeDelegateLinks(f: Funds, self: Address, sender: Address, amount: Uint256, node: Address, f': Funds)
    requires StakeAndDelegate(f, self, sender, amount, node) == Ok(f')
    ensures SameLinks(f.node.list, f'.node.list)
  {
    DelegateLinks(Stake(f, self, sender, amount).value.node, sender, amount, node, f'.node);
  }

  lemma UndelegateWithdrawLinks(f: Funds, self: Address, sender: Address, amount: Uint256, node: Address, f': Funds)
    requires UndelegateWithdraw(f, self, sender, amount, node) == Ok(f')
    ensures SameLinks(f.node.list, f'.node.list)
  {
    UndelegateLinks(f.node, sender, amount, node, Undelegate(f.node, sender, amount, node).value);
  }

  lemma JoinIndexed(f: Funds, self: Address, block: Block, sender: Address, amount: Uint256, metadata: Bytes, f': Funds,
                    order: seq<Address>)
    requires Join(f, self, block, sender, amount, metadata) == Ok(f')
    requires Represents(f.node.list, order) && Indexed(f.node.list.nodes, order)
    ensures Indexed(f'.node.list.nodes, Registered(order, sender))
  {
    var st := UpsertOwn(f.node, block, sender, metadata).value;
    StakeDelegateLinks(Funds(st, f.ledger), self, sender, amount, sender, f');
    UpsertedIndexed(f.node.list, order, block, sender, metadata, st.list, f'.node.list);
  }

  lemma LeaveIndexed(f: Funds, self: Address, sender: Address, f': Funds, order: seq<Address>)
    requires Leave(f, self, sender) == Ok(f')
    requires Represents(f.node.list, order) && Indexed(f.node.list.nodes, order)
    ensures Indexed(f'.node.list.nodes, Without(order, sender)) <==> sender == f.node.list.tailNode
  {
    var delegated := Get(f.node.delegatesOf, (sender, sender));
    var st := Undelegate(f.node, sender, delegated, sender).value;
    UndelegateLinks(f.node, sender, delegated, sender, st);
    RemovedIndexed(f.node.list, st.list, order, sender, f'.node.list);
  }

  lemma RemovalIndexed(r: List, order: seq<Address>, a: Address, r': List)
    requires Represents(r, order) && Indexed(r.nodes, order) && Remove(r, a) == Ok(r')
    ensures Indexed(r'.nodes, Without(order, a)) <==> a == r.tailNode
  {
    RemovedIndexed(r, r, order, a, r');
  }

  lemma MembershipIndexed(f: Funds, env: Env, sender: Address, block: Block, action: Action, f': Funds,
                          order: seq<Address>)
    requires IsMembership(action) && NodeTx(f, env, sender, block, action) == Ok(f')
    requires Represents(f.node.list, order) && Indexed(f.node.list.nodes, order)
    ensures Indexed(f'.node.list.nodes, OrderAfterAction(order, sender, action))
       <==> RemovedBy(sender, action) <= {f.node.list.tailNode}
  {
    var r, r' := f.node.list, f'.node.list;
    match action
    case UpsertOwnNode(metadata) => UpsertIndexed(r, order, block, sender, metadata);
    case UpsertNodeAdmin(node, metadata) => UpsertIndexed(r, order, block, node, metadata);
    case RemoveOwnNode => RemovalIndexed(r, order, sender, r');
    case RemoveNodeAdmin(node) => RemovalIndexed(r, order, node, r');
    case KickNode(node) => RemovalIndexed(r, order, node, r');
    case WhitelistApproveNode(_) =>
    case WhitelistRejectNode(_) =>
    case SetRequiresWhitelist(_) =>
  }

  /** The other transactions on the ledger change at most stakes on the list. */
  lemma LedgerLinks(f: Funds, env: Env, sender: Address, block: Block, action: Action, f': Funds)
    requires !IsMembership(action) && !action.JoinNetwork? && !action.LeaveNetwork?
    requires NodeTx(f, env, sender, block, action) == Ok(f')
    ensures SameLinks(f.node.list, f'.node.list)
  {
    var self := env.contracts.nodeManager;
    match action
    case StakeTokens(amount) => assert f'.node.list == f.node.list;
    case DelegateStake(amount, node) => DelegateLinks(f.node, sender, amount, node, f'.node);
    case UndelegateStake(amount, node) => UndelegateLinks(f.node, sender, amount, node, f'.node);
    case WithdrawTokens(amount) => assert f'.node.list == f.node.list;
    case StakeDelegate(amount, node) => StakeDelegateLinks(f, self, sender, amount, node, f');
    case UndelegateWithdrawal(amount, node) => UndelegateWithdrawLinks(f, self, sender, amount, node, f');
    case WithdrawTreasury(amount) => assert f'.node.list == f.node.list;
  }

  lemma ActionIndexed(f: Funds, env: Env, sender: Address, block: Block, action: Action, f': Funds, order: seq<Address>)
    requires NodeTx(f, env, sender, block, action) == Ok(f')
    requires Represents(f.node.list, order) && Indexed(f.node.list.nodes, order)
    ensures Indexed(f'.node.list.nodes, OrderAfterAction(order, sender, action))
       <==> RemovedBy(sender, action) <= {f.node.list.tailNode}
  {
    if IsMembership(action) {
      MembershipIndexed(f, env, sender, block, action, f', order);
    } else if action.JoinNetwork? {
      JoinIndexed(f, env.contracts.nodeManager, block, sender, action.amount, action.metadata, f', order);
    } else if action.LeaveNetwork? {
      LeaveIndexed(f, env.contracts.nodeManager, sender, f', order);
    } else {
      LedgerLinks(f, env, sender, block, action, f');
      SameLinksIndexed(f.node.list, f'.node.list, order);
    }
  }

  lemma {:induction false} AdjustedSameLinks(st: NodeManager.State, entries: seq<Reports.NodeEntry>,
                                             st': NodeManager.State)
    requires AdjustNodes(st, entries) == Ok(st')
    ensures SameLinks(st.list, st'.list)
    decreases |entries|
  {
    if entries != [] {
      var stake := Adjusted(StakeOf(st, entries[0].id), entries[0].amount).value;
      AdjustedSameLinks(SetStake(st, entries[0].id, stake), entries[1..], st');
    }
  }

  lemma ProcessedIndexed(w: World, c: Contracts, sender: Address, id: Bytes, w': World, order: seq<Address>)
    requires Separate(c) && Solvent(w, c) && ProcessReport(w, c, sender, id) == Ok(w')
    ensures Indexed(w'.node.list.nodes, order) <==> Indexed(w.node.list.nodes, order)
  {
    var report := ReportManager.ReportAt(w.reports, id);
    var w1 := CaptureStreams(w, c, report.content.streams).value;
    var w2 := CaptureConsumers(w1, c, report.content.consumers).value;
    CaptureStreamsSolvent(w, c, report.content.streams, w1);
    CaptureConsumersSolvent(w1, c, report.content.consumers, w2);
    AdjustedSameLinks(w2.node, report.content.nodes, AdjustNodes(w2.node, report.content.nodes).value);
    SameLinksIndexed(w.node.list, w'.node.list, order);
  }

  /** From a list in order, a successful transaction of any kind leaves stale indices exactly if it removes a node
      that is not the last one. */
  lemma StepIndexedIff(w: World, env: Env, call: Call, w': World, order: seq<Address>)
    requires Valid(w, env, order) && Indexed(w.node.list.nodes, order) && Step(w, env, call) == Ok(w')
    ensures Indexed(w'.node.list.nodes, OrderAfter(order, call)) <==> Removed(call) <= {w.node.list.tailNode}
  {
    match call.tx
    case OnNode(action) =>
      ActionIndexed(Funds(w.node, w.ledger), env, call.sender, call.block, action, Funds(w'.node, w'.ledger), order);
    case ProcessReportOf(id) => ProcessedIndexed(w, env.contracts, call.sender, id, w', order);
    case _ =>
  }

  // ----- whole runs

  /** Every successful removal along the run is of the node that is last at that time. */
  predicate LastOnly(w: World, env: Env, calls: seq<Call>)
    decreases |calls|
  {
    calls != [] ==>
      && (Step(w, env, calls[0]).Ok? ==> Removed(calls[0]) <= {w.node.list.tailNode})
      && LastOnly(Apply(w, env, calls[0]), env, calls[1..])
  }

  /** After every prefix of the run the stored indices are positions. */
  ghost predicate AlwaysIndexed(w: World, env: Env, calls: seq<Call>, order: seq<Address>)
    decreases |calls|
  {
    && Indexed(w.node.list.nodes, order)
    && (calls != [] ==>
          AlwaysIndexed(Apply(w, env, calls[0]), env, calls[1..],
                        if Step(w, env, calls[0]).Ok? then OrderAfter(order, calls[0]) else order))
  }

  lemma {:induction false} RunIndexedIff(w: World, env: Env, calls: seq<Call>, order: seq<Address>)
    requires Valid(w, env, order) && Indexed(w.node.list.nodes, order) && AllAdmissible(env, calls)
    ensures AlwaysIndexed(w, env, calls, order) <==> LastOnly(w, env, calls)
    decreases |calls|
  {
    if calls != [] {
      assert Admissible(env, calls[0]);
      var w' := Apply(w, env, calls[0]);
      if Step(w, env, calls[0]).Ok? {
        var order' := OrderAfter(order, calls[0]);
        StepValid(w, env, calls[0], w', order);
        StepIndexedIff(w, env, calls[0], w', order);
        if Indexed(w'.node.list.nodes, order') {
          RunIndexedIff(w', env, calls[1..], order');
        }
      } else {
        RunIndexedIff(w', env, calls[1..], order);
      }
    }
  }

  /** From deployment on, stored indices are positions all along a run exactly if the run only ever removes the
      last node. */
  lemma IndicesArePositionsIff(w: World, env: Env, calls: seq<Call>)
    requires Initial(w, env) && AllAdmissible(env, calls)
    ensures AlwaysIndexed(w, env, calls, []) <==> LastOnly(w, env, calls)
  {
    InitialValid(w, env);
    RunIndexedIff(w, env, calls, []);
  }

  // ----- three transactions that leave a stale index

  function ByOwner(env: Env, block: Block, action: Action): Call {
    Call(env.contracts.owner, block, OnNode(action))
  }

  function RegisterTwoRemoveFirst(env: Env, block: Block, a: Address, b: Address): seq<Call> {
    [ByOwner(env, block, UpsertNodeAdmin(a, [])), ByOwner(env, block, UpsertNodeAdmin(b, [])),
     ByOwner(env, block, RemoveNodeAdmin(a))]
  }

  /** Register `a`, register `b`, remove `a`: `b` is alone on the list and its index says 1. */
  lemma StaleIndex(w: World, env: Env, block: Block, a: Address, b: Address)
    requires Initial(w, env) && block.number > 0 && block.timestamp > 0
    requires a != b && a != NO_ADDRESS && b != NO_ADDRESS
    ensures var calls := RegisterTwoRemoveFirst(env, block, a, b);
            var list := Run(w, env, calls).node.list;
            NodeAddresses(list) == Ok([b]) && At(list.nodes, b).index == 1
  {
    var calls := RegisterTwoRemoveFirst(env, block, a, b);
    var w1 := Apply(w, env, calls[0]);
    var w2 := Apply(w1, env, calls[1]);
    var w3 := Apply(w2, env, calls[2]);
    assert calls[1..][0] == calls[1] && calls[1..][1..][0] == calls[2] && calls[1..][1..][1..] == [];
    assert Run(w, env, calls) == Run(w1, env, calls[1..]) == Run(w2, env, calls[1..][1..]) == w3;
    FirstTwo(w.node.list, block, a, b, w1.node.list, w2.node.list);
    FirstRemoved(w2.node.list, a, b, w3.node.list);
  }

  lemma FirstTwo(r: List, block: Block, a: Address, b: Address, r1: List, r2: List)
    requires r == EMPTY && a != b && a != NO_ADDRESS && block.timestamp > 0
    requires Upsert(r, block, a, []) == Ok(r1) && Upsert(r1, block, b, []) == Ok(r2)
    ensures r2.headNode == a && r2.tailNode == b && r2.totalNodes == 2
    ensures At(r2.nodes, a) == Node(0, [], block.timestamp, b, NO_ADDRESS, 0)
    ensures At(r2.nodes, b) == Node(1, [], block.timestamp, NO_ADDRESS, a, 0)
  {
  }

  lemma FirstRemoved(r: List, a: Address, b: Address, r': List)
    requires a != b && a != NO_ADDRESS && b != NO_ADDRESS
    requires r.headNode == a && r.tailNode == b && r.totalNodes == 2
    requires At(r.nodes, a).next == b && At(r.nodes, a).prev == NO_ADDRESS
    requires At(r.nodes, b).next == NO_ADDRESS && At(r.nodes, b).prev == a && At(r.nodes, b).index == 1
    requires Remove(r, a) == Ok(r')
    ensures NodeAddresses(r') == Ok([b]) && At(r'.nodes, b).index == 1
  {
    assert r'.headNode == b && r'.totalNodes == 1;
    assert At(r'.nodes, b).next == NO_ADDRESS && At(r'.nodes, b).index == 1;
    assert Walk(r'.nodes, NO_ADDRESS, 0) == Ok(Zeros(0)) && [b] + Zeros(0) == [b];
  }
}
