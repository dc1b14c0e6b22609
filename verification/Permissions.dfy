/** Who holds the publish permission after a run, staked or not. Removing a node forgets its stake and revokes
    nothing. */
module Permissions {
  import opened Evm
  import opened Mappings
  import opened NodeManager
  import opened Protocol
  import opened Registry
  import opened Settlement

  import Reports
  import ReportManager

  // ----- which stakes a transaction sets

  /** The nodes whose stake an action sets if it succeeds, and whose permission it thereby brings into line. */
  function SetBy(sender: Address, action: Action): set<Address> {
    match action
    case DelegateStake(_, node) => {node}
    case UndelegateStake(_, node) => {node}
    case StakeDelegate(_, node) => {node}
    case UndelegateWithdrawal(_, node) => {node}
    case JoinNetwork(_, _) => {sender}
    case LeaveNetwork => {sender}
    case _ => {}
  }

  function Ids(entries: seq<Reports.NodeEntry>): set<Address> {
    if entries == [] then {} else {entries[0].id} + Ids(entries[1..])
  }

  function SetByCall(w: World, call: Call): set<Address> {
    match call.tx
    case OnNode(action) => SetBy(call.sender, action)
    case ProcessReportOf(id) => Ids(ReportManager.ReportAt(w.reports, id).content.nodes)
    case _ => {}
  }

  /** Among `nodes` the permission follows the stake; outside of it neither has changed. */
  ghost predicate SetOnly(st: NodeManager.State, st': NodeManager.State, nodes: set<Address>) {
    && st'.stakeRequiredAmount == st.stakeRequiredAmount
    && forall a: Address ::
         if a in nodes then a in st'.permitted <==> StakeOf(st', a) >= st'.stakeRequiredAmount
         else StakeOf(st', a) == StakeOf(st, a) && (a in st'.permitted <==> a in st.permitted)
  }

  lemma SetThenSet(st: NodeManager.State, st1: NodeManager.State, st2: NodeManager.State, nodes1: set<Address>,
                   nodes2: set<Address>)
    requires SetOnly(st, st1, nodes1) && SetOnly(st1, st2, nodes2)
    ensures SetOnly(st, st2, nodes1 + nodes2)
  {
  }

  lemma UpsertSets(st: NodeManager.State, block: Block, a: Address, metadata: Bytes, st': NodeManager.State)
    requires UpsertNode(st, block, a, metadata) == Ok(st')
    ensures SetOnly(st, st', {})
  {
    forall x: Address ensures StakeOf(st', x) == StakeOf(st, x) {
      UpsertStake(st.list, block, a, metadata, x);
    }
  }

  lemma DelegateSets(st: NodeManager.State, sender: Address, amount: Uint256, node: Address, st': NodeManager.State)
    requires Delegate(st, sender, amount, node) == Ok(st')
    ensures SetOnly(st, st', {node})
  {
  }

  lemma UndelegateSets(st: NodeManager.State, sender: Address, amount: Uint256, node: Address, st': NodeManager.State)
    requires Undelegate(st, sender, amount, node) == Ok(st')
    ensures SetOnly(st, st', {node})
  {
  }

  lemma StakeDelegateSets(f: Funds, self: Address, sender: Address, amount: Uint256, node: Address, f': Funds)
    requires StakeAndDelegate(f, self, sender, amount, node) == Ok(f')
    ensures SetOnly(f.node, f'.node, {node})
  {
    var st := Stake(f, self, sender, amount).value.node;
    DelegateSets(st, sender, amount, node, f'.node);
    assert SetOnly(f.node, st, {});
    SetThenSet(f.node, st, f'.node, {}, {node});
  }

  lemma UndelegateWithdrawSets(f: Funds, self: Address, sender: Address, amount: Uint256, node: Address, f': Funds)
    requires UndelegateWithdraw(f, self, sender, amount, node) == Ok(f')
    ensures SetOnly(f.node, f'.node, {node})
  {
    var st := Undelegate(f.node, sender, amount, node).value;
    UndelegateSets(f.node, sender, amount, node, st);
    assert SetOnly(st, f'.node, {});
    SetThenSet(f.node, st, f'.node, {node}, {});
  }

  lemma JoinSets(f: Funds, self: Address, block: Block, sender: Address, amount: Uint256, metadata: Bytes, f': Funds)
    requires Join(f, self, block, sender, amount, metadata) == Ok(f')
    ensures SetOnly(f.node, f'.node, {sender})
  {
    var st := UpsertOwn(f.node, block, sender, metadata).value;
    UpsertSets(f.node, block, sender, metadata, st);
    StakeDelegateSets(Funds(st, f.ledger), self, sender, amount, sender, f');
    SetThenSet(f.node, st, f'.node, {}, {sender});
  }

  /** What a transaction on the ledger does to stakes and permissions if it removes no node. */
  lemma ActionSets(f: Funds, env: Env, sender: Address, block: Block, action: Action, f': Funds)
    requires RemovedBy(sender, action) == {} && NodeTx(f, env, sender, block, action) == Ok(f')
    ensures SetOnly(f.node, f'.node, SetBy(sender, action))
  {
    var self := env.contracts.nodeManager;
    match action
    case UpsertOwnNode(metadata) => UpsertSets(f.node, block, sender, metadata, f'.node);
    case UpsertNodeAdmin(node, metadata) => UpsertSets(f.node, block, node, metadata, f'.node);
    case DelegateStake(amount, node) => DelegateSets(f.node, sender, amount, node, f'.node);
    case UndelegateStake(amount, node) => UndelegateSets(f.node, sender, amount, node, f'.node);
    case StakeDelegate(amount, node) => StakeDelegateSets(f, self, sender, amount, node, f');
    case UndelegateWithdrawal(amount, node) => UndelegateWithdrawSets(f, self, sender, amount, node, f');
    case JoinNetwork(amount, metadata) => JoinSets(f, self, block, sender, amount, metadata, f');
    case _ => SameAccess(f, env, sender, block, action, f');
  }

  lemma SameAccess(f: Funds, env: Env, sender: Address, block: Block, action: Action, f': Funds)
    requires || action.StakeTokens? || action.WithdrawTokens? || action.WithdrawTreasury?
             || action.WhitelistApproveNode? || action.WhitelistRejectNode? || action.SetRequiresWhitelist?
    requires NodeTx(f, env, sender, block, action) == Ok(f')
    ensures f'.node.list == f.node.list && f'.node.permitted == f.node.permitted
    ensures f'.node.stakeRequiredAmount == f.node.stakeRequiredAmount
  {
  }

  lemma {:induction false} AdjustSets(st: NodeManager.State, entries: seq<Reports.NodeEntry>, st': NodeManager.State)
    requires AdjustNodes(st, entries) == Ok(st')
    ensures SetOnly(st, st', Ids(entries))
    decreases |entries|
  {
    if entries != [] {
      var stake := Adjusted(StakeOf(st, entries[0].id), entries[0].amount).value;
      var st1 := SetStake(st, entries[0].id, stake);
      AdjustSets(st1, entries[1..], st');
      assert SetOnly(st, st1, {entries[0].id});
      SetThenSet(st, st1, st', {entries[0].id}, Ids(entries[1..]));
    }
  }

  // ----- what a removal leaves behind

  /** `removed` has lost its stake; its permission and everything about the others is as in a state in which only
      the stakes of `nodes` had been set. */
  ghost predicate RemovedOnly(st: NodeManager.State, st': NodeManager.State, removed: Address, nodes: set<Address>) {
    && st'.stakeRequiredAmount == st.stakeRequiredAmount
    && nodes <= {removed}
    && StakeOf(st', removed) == 0
    && forall a: Address :: a != removed ==>
         StakeOf(st', a) == StakeOf(st, a) && (a in st'.permitted <==> a in st.permitted)
  }

  lemma RemovalAccess(st: NodeManager.State, a: Address, st': NodeManager.State)
    requires RemoveNode(st, a) == Ok(st')
    ensures RemovedOnly(st, st', a, {}) && st'.permitted == st.permitted
  {
    forall x: Address ensures StakeOf(st', x) == if x == a then 0 else StakeOf(st, x) {
      RemoveStake(st.list, a, x);
    }
  }

  lemma LeaveAccess(f: Funds, self: Address, sender: Address, f': Funds)
    requires Leave(f, self, sender) == Ok(f')
    ensures RemovedOnly(f.node, f'.node, sender, {sender})
  {
    var st := Undelegate(f.node, sender, Get(f.node.delegatesOf, (sender, sender)), sender).value;
    UndelegateSets(f.node, sender, Get(f.node.delegatesOf, (sender, sender)), sender, st);
    var f1 := Withdraw(Funds(st, f.ledger), self, sender, Get(st.balanceOf, sender)).value;
    RemovalAccess(f1.node, sender, f'.node);
    assert f1.node.list == st.list && f1.node.permitted == st.permitted;
  }

  lemma RemovalActions(f: Funds, env: Env, sender: Address, block: Block, action: Action, f': Funds, a: Address)
    requires RemovedBy(sender, action) == {a} && NodeTx(f, env, sender, block, action) == Ok(f')
    ensures RemovedOnly(f.node, f'.node, a, SetBy(sender, action))
  {
    match action
    case RemoveOwnNode => RemovalAccess(f.node, sender, f'.node);
    case RemoveNodeAdmin(node) => RemovalAccess(f.node, node, f'.node);
    case KickNode(node) => RemovalAccess(f.node.(whitelist := f.node.whitelist[node := Rejected]), node, f'.node);
    case LeaveNetwork => LeaveAccess(f, env.contracts.nodeManager, sender, f');
  }

  // ----- runs

  /** The permitted are those with enough stake and those in `stale`. */
  ghost predicate Aligned(st: NodeManager.State, stale: set<Address>) {
    && st.stakeRequiredAmount > 0
    && forall a: Address :: a in st.permitted <==> StakeOf(st, a) >= st.stakeRequiredAmount || a in stale
  }

  /** Whose permission is stale after a successful transaction: nobody's whose stake it sets, and that of a node that it
      removes while permitted. */
  function StaleAfter(stale: set<Address>, w: World, call: Call, w': World): set<Address> {
    stale - SetByCall(w, call) - Removed(call) + Removed(call) * w'.node.permitted
  }

  function Stale(w: World, env: Env, calls: seq<Call>, stale: set<Address>): set<Address>
    decreases |calls|
  {
    if calls == [] then stale else
    var w' := Apply(w, env, calls[0]);
    Stale(w', env, calls[1..], if Step(w, env, calls[0]).Ok? then StaleAfter(stale, w, calls[0], w') else stale)
  }

  lemma AlignedAfterSet(st: NodeManager.State, st': NodeManager.State, nodes: set<Address>, stale: set<Address>)
    requires Aligned(st, stale) && SetOnly(st, st', nodes)
    ensures Aligned(st', stale - nodes)
  {
  }

  lemma AlignedAfterRemoval(st: NodeManager.State, st': NodeManager.State, removed: Address, nodes: set<Address>,
                            stale: set<Address>)
    requires Aligned(st, stale) && RemovedOnly(st, st', removed, nodes)
    ensures Aligned(st', stale - nodes - {removed} + {removed} * st'.permitted)
  {
  }

  lemma NodeStepAligned(w: World, env: Env, call: Call, w': World, stale: set<Address>)
    requires Aligned(w.node, stale) && call.tx.OnNode? && Step(w, env, call) == Ok(w')
    ensures Aligned(w'.node, StaleAfter(stale, w, call, w'))
  {
    var f, f' := Funds(w.node, w.ledger), Funds(w'.node, w'.ledger);
    var nodes := SetBy(call.sender, call.tx.action);
    if removed :| removed in Removed(call) {
      assert Removed(call) == {removed};
      RemovalActions(f, env, call.sender, call.block, call.tx.action, f', removed);
      AlignedAfterRemoval(w.node, w'.node, removed, nodes, stale);
    } else {
      assert Removed(call) == {};
      ActionSets(f, env, call.sender, call.block, call.tx.action, f');
      AlignedAfterSet(w.node, w'.node, nodes, stale);
      assert StaleAfter(stale, w, call, w') == stale - nodes;
    }
  }

  lemma ProcessSets(w: World, c: Contracts, sender: Address, id: Bytes, w': World)
    requires Separate(c) && Solvent(w, c) && ProcessReport(w, c, sender, id) == Ok(w')
    ensures SetOnly(w.node, w'.node, Ids(ReportManager.ReportAt(w.reports, id).content.nodes))
  {
    var content := ReportManager.ReportAt(w.reports, id).content;
    var w1 := CaptureStreams(w, c, content.streams).value;
    var w2 := CaptureConsumers(w1, c, content.consumers).value;
    CaptureStreamsSolvent(w, c, content.streams, w1);
    CaptureConsumersSolvent(w1, c, content.consumers, w2);
    AdjustSets(w2.node, content.nodes, AdjustNodes(w2.node, content.nodes).value);
  }

  lemma ProcessAligned(w: World, env: Env, call: Call, w': World, stale: set<Address>)
    requires Aligned(w.node, stale) && Separate(env.contracts) && Solvent(w, env.contracts)
    requires call.tx.ProcessReportOf? && Step(w, env, call) == Ok(w')
    ensures Aligned(w'.node, StaleAfter(stale, w, call, w'))
  {
    var nodes := SetByCall(w, call);
    ProcessSets(w, env.contracts, call.sender, call.tx.id, w');
    AlignedAfterSet(w.node, w'.node, nodes, stale);
    assert StaleAfter(stale, w, call, w') == stale - nodes;
  }

  lemma StepAligned(w: World, env: Env, call: Call, w': World, stale: set<Address>)
    requires Aligned(w.node, stale) && Separate(env.contracts) && Solvent(w, env.contracts)
    requires Step(w, env, call) == Ok(w')
    ensures Aligned(w'.node, StaleAfter(stale, w, call, w'))
  {
    match call.tx
    case OnNode(_) => NodeStepAligned(w, env, call, w', stale);
    case ProcessReportOf(_) => ProcessAligned(w, env, call, w', stale);
    case _ => assert w'.node == w.node;
  }

  lemma {:induction false} RunAligned(w: World, env: Env, calls: seq<Call>, order: seq<Address>, stale: set<Address>)
    requires Valid(w, env, order) && AllAdmissible(env, calls) && Aligned(w.node, stale)
    ensures Aligned(Run(w, env, calls).node, Stale(w, env, calls, stale))
    decreases |calls|
  {
    if calls != [] {
      assert Admissible(env, calls[0]);
      var w' := Apply(w, env, calls[0]);
      if Step(w, env, calls[0]).Ok? {
        StepValid(w, env, calls[0], w', order);
        StepAligned(w, env, calls[0], w', stale);
        RunAligned(w', env, calls[1..], OrderAfter(order, calls[0]), StaleAfter(stale, w, calls[0], w'));
      } else {
        RunAligned(w', env, calls[1..], order, stale);
      }
    }
  }

  /** After any run the publish permission belongs to exactly the staked nodes and those that were removed while they
      held it and whose stake nobody has set since. */
  lemma PermittedIff(w: World, env: Env, calls: seq<Call>, a: Address)
    requires Initial(w, env) && AllAdmissible(env, calls)
    ensures a in Run(w, env, calls).node.permitted
       <==> IsStaked(Run(w, env, calls).node, a) || a in Stale(w, env, calls, {})
  {
    InitialValid(w, env);
    RunAligned(w, env, calls, [], {});
  }
}
