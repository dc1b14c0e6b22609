/** Runs of the whole protocol: any sequence of transactions by any outside accounts. */
module Protocol {
  import opened Evm
  import opened Mappings
  import opened NodeManager
  import opened Registry
  import opened Reports
  import opened Settlement
  import opened Token

  import Consensus
  import Queries
  import ReportManager
  import Schedule
  import Stores

  /** What is fixed for a run: the deployment, signature recovery, and which streams exist. */
  datatype Env = Env(contracts: Contracts, recover: Consensus.Recover, streamExists: Bytes -> bool)

  /** What an account can ask of the node manager, apart from processing a report. */
  datatype Action =
    | UpsertOwnNode(metadata: Bytes)
    | UpsertNodeAdmin(node: Address, metadata: Bytes)
    | RemoveOwnNode
    | RemoveNodeAdmin(node: Address)
    | KickNode(node: Address)
    | WhitelistApproveNode(node: Address)
    | WhitelistRejectNode(node: Address)
    | SetRequiresWhitelist(required: bool)
    | StakeTokens(amount: Uint256)
    | DelegateStake(amount: Uint256, node: Address)
    | UndelegateStake(amount: Uint256, node: Address)
    | WithdrawTokens(amount: Uint256)
    | StakeDelegate(amount: Uint256, node: Address)
    | UndelegateWithdrawal(amount: Uint256, node: Address)
    | JoinNetwork(amount: Uint256, metadata: Bytes)
    | LeaveNetwork
    | WithdrawTreasury(amount: Uint256)

  datatype Tx =
    | OnNode(action: Action)
    | StakeStore(stream: Bytes, amount: Uint256)
    | StakeQuery(amount: Uint256)
    | SubmitReport(arguments: Arguments)
    | ProcessReportOf(id: Bytes)
    | SetReportTimeBuffer(buffer: Uint256)
    | TransferTokens(to: Address, amount: Uint256)

  datatype Call = Call(sender: Address, block: Block, tx: Tx)

  function OnlyOwner(env: Env, sender: Address): Outcome<()> {
    Require(sender == env.contracts.owner, "Ownable: caller is not the owner")
  }

  function WithFunds(w: World, funds: Outcome<Funds>): Outcome<World> {
    var f :- funds;
    Ok(w.(node := f.node, ledger := f.ledger))
  }

  function Submit(w: World, env: Env, sender: Address, block: Block, p: Arguments): Outcome<World> {
    var reports :- ReportManager.Submit(w.reports, NodeAddresses(w.node.list), IsStaked(w.node, sender), block,
                                        sender, p, env.recover);
    Ok(w.(reports := reports))
  }

  function NodeTx(f: Funds, env: Env, sender: Address, block: Block, action: Action): Outcome<Funds> {
    var self := env.contracts.nodeManager;
    match action
    case UpsertOwnNode(metadata) => var st :- UpsertOwn(f.node, block, sender, metadata); Ok(f.(node := st))
    case UpsertNodeAdmin(node, metadata) =>
      var _ :- OnlyOwner(env, sender);
      var st :- UpsertNode(f.node, block, node, metadata);
      Ok(f.(node := st))
    case RemoveOwnNode => var st :- RemoveNode(f.node, sender); Ok(f.(node := st))
    case RemoveNodeAdmin(node) =>
      var _ :- OnlyOwner(env, sender);
      var st :- RemoveNode(f.node, node);
      Ok(f.(node := st))
    case KickNode(node) =>
      var _ :- OnlyOwner(env, sender);
      var st :- RemoveNode(f.node.(whitelist := f.node.whitelist[node := Rejected]), node);
      Ok(f.(node := st))
    case WhitelistApproveNode(node) =>
      var _ :- OnlyOwner(env, sender);
      Ok(f.(node := f.node.(whitelist := f.node.whitelist[node := Approved])))
    case WhitelistRejectNode(node) =>
      var _ :- OnlyOwner(env, sender);
      Ok(f.(node := f.node.(whitelist := f.node.whitelist[node := Rejected])))
    case SetRequiresWhitelist(required) =>
      var _ :- OnlyOwner(env, sender);
      Ok(f.(node := f.node.(requiresWhitelist := required)))
    case StakeTokens(amount) => Stake(f, self, sender, amount)
    case DelegateStake(amount, node) => var st :- Delegate(f.node, sender, amount, node); Ok(f.(node := st))
    case UndelegateStake(amount, node) => var st :- Undelegate(f.node, sender, amount, node); Ok(f.(node := st))
    case WithdrawTokens(amount) => Withdraw(f, self, sender, amount)
    case StakeDelegate(amount, node) => StakeAndDelegate(f, self, sender, amount, node)
    case UndelegateWithdrawal(amount, node) => UndelegateWithdraw(f, self, sender, amount, node)
    case JoinNetwork(amount, metadata) => Join(f, self, block, sender, amount, metadata)
    case LeaveNetwork => Leave(f, self, sender)
    case WithdrawTreasury(amount) =>
      var _ :- OnlyOwner(env, sender);
      TreasuryWithdraw(f, self, sender, amount)
  }

  function Step(w: World, env: Env, call: Call): Outcome<World> {
    var c := env.contracts;
    match call.tx
    case OnNode(action) => WithFunds(w, NodeTx(Funds(w.node, w.ledger), env, call.sender, call.block, action))
    case StakeStore(stream, amount) =>
      var (stores, ledger) :- Stores.Stake(w.stores, w.ledger, c.storeManager, call.sender, env.streamExists(stream),
                                           stream, amount);
      Ok(w.(stores := stores, ledger := ledger))
    case StakeQuery(amount) =>
      var (queries, ledger) :- Queries.Stake(w.queries, w.ledger, c.queryManager, call.sender, amount);
      Ok(w.(queries := queries, ledger := ledger))
    case SubmitReport(p) => Submit(w, env, call.sender, call.block, p)
    case ProcessReportOf(id) => ProcessReport(w, c, call.sender, id)
    case SetReportTimeBuffer(buffer) =>
      var _ :- OnlyOwner(env, call.sender);
      var precise :- Mul(buffer, Schedule.MATH_PRECISION);
      Ok(w.(reports := w.reports.(reportTimeBuffer := precise)))
    case TransferTokens(to, amount) =>
      var ledger :- Transfer(w.ledger, call.sender, to, amount);
      Ok(w.(ledger := ledger))
  }

  /** A transaction that reverts leaves no trace. */
  function Apply(w: World, env: Env, call: Call): World {
    match Step(w, env, call)
    case Ok(w') => w'
    case Revert(_) => w
  }

  function Run(w: World, env: Env, calls: seq<Call>): World
    decreases |calls|
  {
    if calls == [] then w else Run(Apply(w, env, calls[0]), env, calls[1..])
  }

  // ----- the assumptions about transactions

  predicate IsContract(c: Contracts, a: Address) {
    a == c.nodeManager || a == c.storeManager || a == c.queryManager
  }

  /** Contracts send no transactions and receive tokens only through their own functions; blocks have a
      number and a time; the owner does not register the zero address. */
  predicate Admissible(env: Env, call: Call) {
    && call.sender != NO_ADDRESS && !IsContract(env.contracts, call.sender)
    && call.block.number > 0 && call.block.timestamp > 0
    && (call.tx.OnNode? && call.tx.action.UpsertNodeAdmin? ==> call.tx.action.node != NO_ADDRESS)
    && (call.tx.TransferTokens? ==> !IsContract(env.contracts, call.tx.to))
  }

  predicate AllAdmissible(env: Env, calls: seq<Call>) {
    forall i :: 0 <= i < |calls| ==> Admissible(env, calls[i])
  }

  /** The state after deployment, with any distribution of tokens outside the contracts. */
  ghost predicate Initial(w: World, env: Env) {
    && Separate(env.contracts)
    && (forall a: Address :: IsContract(env.contracts, a) ==> Get(w.ledger, a) == 0)
    && w.node.stakeRequiredAmount > 0
    && w.node.totalSupply == 0 && w.node.treasurySupply == 0
    && w.node.list == Registry.EMPTY
    && w.node.balanceOf == map[] && w.node.delegatesOf == map[] && w.node.permitted == {}
    && w.stores == Stores.EMPTY && w.queries == Queries.EMPTY
    && w.reports.reputationOf == map[] && w.reports.lastReportId == []
    && w.reports.reports == map[] && w.reports.reportProofs == map[]
  }

  // ----- the registered nodes of a run

  function OrderAfterAction(order: seq<Address>, sender: Address, action: Action): seq<Address> {
    match action
    case UpsertOwnNode(_) => Registered(order, sender)
    case UpsertNodeAdmin(node, _) => Registered(order, node)
    case JoinNetwork(_, _) => Registered(order, sender)
    case RemoveOwnNode => Without(order, sender)
    case RemoveNodeAdmin(node) => Without(order, node)
    case KickNode(node) => Without(order, node)
    case LeaveNetwork => Without(order, sender)
    case _ => order
  }

  function OrderAfter(order: seq<Address>, call: Call): seq<Address> {
    if call.tx.OnNode? then OrderAfterAction(order, call.sender, call.tx.action) else order
  }

  /** The nodes in the order in which they registered, read off the successful transactions alone. */
  function Members(w: World, env: Env, calls: seq<Call>, order: seq<Address>): seq<Address>
    decreases |calls|
  {
    if calls == [] then order else
    Members(Apply(w, env, calls[0]), env, calls[1..],
            if Step(w, env, calls[0]).Ok? then OrderAfter(order, calls[0]) else order)
  }

  /** The nodes that an action removes if it succeeds. */
  function RemovedBy(sender: Address, action: Action): set<Address> {
    match action
    case RemoveOwnNode => {sender}
    case RemoveNodeAdmin(node) => {node}
    case KickNode(node) => {node}
    case LeaveNetwork => {sender}
    case _ => {}
  }

  function Removed(call: Call): set<Address> {
    if call.tx.OnNode? then RemovedBy(call.sender, call.tx.action) else {}
  }

  // ----- what every transaction on the node manager's own books keeps

  /** The books keep balancing, only two token accounts move, the list goes from `order` to `order'`, and
      except for the nodes `gone` an exact stake stays exact. */
  ghost predicate Moves(f: Funds, f': Funds, self: Address, sender: Address, order: seq<Address>,
                        order': seq<Address>, gone: set<Address>) {
    && Keeps(f, f', self)
    && OnlyBetween(f.ledger, f'.ledger, self, sender)
    && (Represents(f.node.list, order) ==> Represents(f'.node.list, order'))
    && forall n: Address :: n !in gone && StakeExact(f.node, n) ==> StakeExact(f'.node, n)
  }

  lemma Compose(f: Funds, f1: Funds, f2: Funds, self: Address, sender: Address,
                order: seq<Address>, order1: seq<Address>, order2: seq<Address>, gone: set<Address>)
    requires Moves(f, f1, self, sender, order, order1, {})
    requires Moves(f1, f2, self, sender, order1, order2, gone)
    ensures Moves(f, f2, self, sender, order, order2, gone)
  {
  }

  lemma UpsertMoves(f: Funds, self: Address, sender: Address, block: Block, a: Address, metadata: Bytes,
                    st': NodeManager.State, order: seq<Address>)
    requires a != NO_ADDRESS && block.number > 0 && block.timestamp > 0
    requires UpsertNode(f.node, block, a, metadata) == Ok(st')
    ensures Moves(f, f.(node := st'), self, sender, order, Registered(order, a), {})
  {
    UpsertKeeps(f, self, block, a, metadata, st');
    if Represents(f.node.list, order) {
      UpsertRepresents(f.node.list, order, block, a, metadata);
    }
  }

  lemma RemoveMoves(f: Funds, self: Address, sender: Address, a: Address, st': NodeManager.State, order: seq<Address>)
    requires RemoveNode(f.node, a) == Ok(st')
    ensures Moves(f, f.(node := st'), self, sender, order, Without(order, a), {a})
  {
    RemoveKeeps(f, self, a, st');
    if Represents(f.node.list, order) {
      RemoveRepresents(f.node.list, order, a);
    }
  }

  lemma KickMoves(f: Funds, self: Address, sender: Address, a: Address, whitelist: map<Address, Whitelisting>,
                  st': NodeManager.State, order: seq<Address>)
    requires RemoveNode(f.node.(whitelist := whitelist), a) == Ok(st')
    ensures Moves(f, f.(node := st'), self, sender, order, Without(order, a), {a})
  {
    RemoveMoves(f.(node := f.node.(whitelist := whitelist)), self, sender, a, st', order);
  }

  lemma DelegateMoves(f: Funds, self: Address, sender: Address, amount: Uint256, node: Address,
                      st': NodeManager.State, order: seq<Address>)
    requires Delegate(f.node, sender, amount, node) == Ok(st')
    ensures Moves(f, f.(node := st'), self, sender, order, order, {})
  {
    DelegateKeeps(f, self, sender, amount, node, st');
    if Represents(f.node.list, order) {
      StakeRepresents(f.node.list, order, node, StakeOf(f.node, node) + amount);
    }
  }

  lemma UndelegateMoves(f: Funds, self: Address, sender: Address, amount: Uint256, node: Address,
                        st': NodeManager.State, order: seq<Address>)
    requires Undelegate(f.node, sender, amount, node) == Ok(st')
    ensures Moves(f, f.(node := st'), self, sender, order, order, {})
  {
    UndelegateKeeps(f, self, sender, amount, node, st');
    if Represents(f.node.list, order) {
      StakeRepresents(f.node.list, order, node, StakeOf(f.node, node) - amount);
    }
  }

  lemma StakeMoves(f: Funds, self: Address, sender: Address, amount: Uint256, f': Funds, order: seq<Address>)
    requires sender != self && Stake(f, self, sender, amount) == Ok(f')
    ensures Moves(f, f', self, sender, order, order, {})
  {
    StakeKeeps(f, self, sender, amount, f');
  }

  lemma WithdrawMoves(f: Funds, self: Address, sender: Address, amount: Uint256, f': Funds, order: seq<Address>)
    requires sender != self && Withdraw(f, self, sender, amount) == Ok(f')
    ensures Moves(f, f', self, sender, order, order, {})
  {
    WithdrawKeeps(f, self, sender, amount, f');
  }

  lemma TreasuryMoves(f: Funds, self: Address, owner: Address, amount: Uint256, f': Funds, order: seq<Address>)
    requires owner != self && TreasuryWithdraw(f, self, owner, amount) == Ok(f')
    ensures Moves(f, f', self, owner, order, order, {})
  {
    TreasuryWithdrawKeeps(f, self, owner, amount, f');
  }

  lemma StakeDelegateMoves(f: Funds, self: Address, sender: Address, amount: Uint256, node: Address, f': Funds,
                           order: seq<Address>)
    requires sender != self && StakeAndDelegate(f, self, sender, amount, node) == Ok(f')
    ensures Moves(f, f', self, sender, order, order, {})
  {
    var f1 := Stake(f, self, sender, amount).value;
    StakeMoves(f, self, sender, amount, f1, order);
    DelegateMoves(f1, self, sender, amount, node, f'.node, order);
    Compose(f, f1, f', self, sender, order, order, order, {});
  }

  lemma UndelegateWithdrawMoves(f: Funds, self: Address, sender: Address, amount: Uint256, node: Address, f': Funds,
                                order: seq<Address>)
    requires sender != self && UndelegateWithdraw(f, self, sender, amount, node) == Ok(f')
    ensures Moves(f, f', self, sender, order, order, {})
  {
    var st := Undelegate(f.node, sender, amount, node).value;
    UndelegateMoves(f, self, sender, amount, node, st, order);
    WithdrawMoves(Funds(st, f.ledger), self, sender, amount, f', order);
    Compose(f, Funds(st, f.ledger), f', self, sender, order, order, order, {});
  }

  lemma JoinMoves(f: Funds, self: Address, block: Block, sender: Address, amount: Uint256, metadata: Bytes, f': Funds,
                  order: seq<Address>)
    requires sender != NO_ADDRESS && sender != self && block.number > 0 && block.timestamp > 0
    requires Join(f, self, block, sender, amount, metadata) == Ok(f')
    ensures Moves(f, f', self, sender, order, Registered(order, sender), {})
  {
    var st := UpsertOwn(f.node, block, sender, metadata).value;
    UpsertMoves(f, self, sender, block, sender, metadata, st, order);
    StakeDelegateMoves(Funds(st, f.ledger), self, sender, amount, sender, f', Registered(order, sender));
    Compose(f, Funds(st, f.ledger), f', self, sender, order, Registered(order, sender), Registered(order, sender), {});
  }

  lemma LeaveMoves(f: Funds, self: Address, sender: Address, f': Funds, order: seq<Address>)
    requires sender != self && Leave(f, self, sender) == Ok(f')
    ensures Moves(f, f', self, sender, order, Without(order, sender), {sender})
  {
    var st := Undelegate(f.node, sender, Get(f.node.delegatesOf, (sender, sender)), sender).value;
    var f1 := Withdraw(Funds(st, f.ledger), self, sender, Get(st.balanceOf, sender)).value;
    UndelegateMoves(f, self, sender, Get(f.node.delegatesOf, (sender, sender)), sender, st, order);
    WithdrawMoves(Funds(st, f.ledger), self, sender, Get(st.balanceOf, sender), f1, order);
    Compose(f, Funds(st, f.ledger), f1, self, sender, order, order, order, {});
    RemoveMoves(f1, self, sender, sender, f'.node, order);
    Compose(f, f1, f', self, sender, order, order, Without(order, sender), {sender});
  }

  predicate IsMembership(action: Action) {
    || action.UpsertOwnNode? || action.UpsertNodeAdmin? || action.RemoveOwnNode? || action.RemoveNodeAdmin?
    || action.KickNode? || action.WhitelistApproveNode? || action.WhitelistRejectNode? || action.SetRequiresWhitelist?
  }

  lemma MembershipMoves(f: Funds, env: Env, sender: Address, block: Block, action: Action, f': Funds,
                        order: seq<Address>)
    requires IsMembership(action) && sender != NO_ADDRESS && block.number > 0 && block.timestamp > 0
    requires action.UpsertNodeAdmin? ==> action.node != NO_ADDRESS
    requires NodeTx(f, env, sender, block, action) == Ok(f')
    ensures Moves(f, f', env.contracts.nodeManager, sender, order,
                  OrderAfterAction(order, sender, action), RemovedBy(sender, action))
  {
    var self := env.contracts.nodeManager;
    match action
    case UpsertOwnNode(metadata) => UpsertMoves(f, self, sender, block, sender, metadata, f'.node, order);
    case UpsertNodeAdmin(node, metadata) => UpsertMoves(f, self, sender, block, node, metadata, f'.node, order);
    case RemoveOwnNode => RemoveMoves(f, self, sender, sender, f'.node, order);
    case RemoveNodeAdmin(node) => RemoveMoves(f, self, sender, node, f'.node, order);
    case KickNode(node) => KickMoves(f, self, sender, node, f.node.whitelist[node := Rejected], f'.node, order);
    case WhitelistApproveNode(_) =>
    case WhitelistRejectNode(_) =>
    case SetRequiresWhitelist(_) =>
  }

  lemma TokenMoves(f: Funds, env: Env, sender: Address, block: Block, action: Action, f': Funds, order: seq<Address>)
    requires !IsMembership(action) && sender != NO_ADDRESS && sender != env.contracts.nodeManager
    requires block.number > 0 && block.timestamp > 0
    requires NodeTx(f, env, sender, block, action) == Ok(f')
    ensures Moves(f, f', env.contracts.nodeManager, sender, order,
                  OrderAfterAction(order, sender, action), RemovedBy(sender, action))
  {
    var self := env.contracts.nodeManager;
    match action
    case StakeTokens(amount) => StakeMoves(f, self, sender, amount, f', order);
    case DelegateStake(amount, node) => DelegateMoves(f, self, sender, amount, node, f'.node, order);
    case UndelegateStake(amount, node) => UndelegateMoves(f, self, sender, amount, node, f'.node, order);
    case WithdrawTokens(amount) => WithdrawMoves(f, self, sender, amount, f', order);
    case StakeDelegate(amount, node) => StakeDelegateMoves(f, self, sender, amount, node, f', order);
    case UndelegateWithdrawal(amount, node) => UndelegateWithdrawMoves(f, self, sender, amount, node, f', order);
    case JoinNetwork(amount, metadata) => JoinMoves(f, self, block, sender, amount, metadata, f', order);
    case LeaveNetwork => LeaveMoves(f, self, sender, f', order);
    case WithdrawTreasury(amount) => TreasuryMoves(f, self, sender, amount, f', order);
  }

  lemma NodeTxMoves(f: Funds, env: Env, sender: Address, block: Block, action: Action, f': Funds, order: seq<Address>)
    requires Separate(env.contracts) && sender != NO_ADDRESS && !IsContract(env.contracts, sender)
    requires block.number > 0 && block.timestamp > 0
    requires action.UpsertNodeAdmin? ==> action.node != NO_ADDRESS
    requires NodeTx(f, env, sender, block, action) == Ok(f')
    ensures Moves(f, f', env.contracts.nodeManager, sender, order,
                  OrderAfterAction(order, sender, action), RemovedBy(sender, action))
  {
    if IsMembership(action) {
      MembershipMoves(f, env, sender, block, action, f', order);
    } else {
      TokenMoves(f, env, sender, block, action, f', order);
    }
  }

  // ----- the invariant

  /** The invariant of the protocol, with the registered nodes in their order. */
  ghost predicate Valid(w: World, env: Env, order: seq<Address>) {
    && Separate(env.contracts)
    && Solvent(w, env.contracts)
    && AccessInLine(w.node)
    && Represents(w.node.list, order)
  }

  lemma InitialValid(w: World, env: Env)
    requires Initial(w, env)
    ensures Valid(w, env, [])
  {
    Stores.EmptyValid();
    Queries.EmptyValid();
  }

  /** The transactions on the node manager's own books leave the escrows alone. */
  lemma NodeTxValid(w: World, env: Env, call: Call, w': World, order: seq<Address>)
    requires Valid(w, env, order) && Admissible(env, call)
    requires call.tx.OnNode? && Step(w, env, call) == Ok(w')
    ensures Valid(w', env, OrderAfter(order, call))
  {
    NodeTxMoves(Funds(w.node, w.ledger), env, call.sender, call.block, call.tx.action, Funds(w'.node, w'.ledger),
                order);
  }

  lemma StakeStoreValid(w: World, env: Env, call: Call, w': World, order: seq<Address>)
    requires Valid(w, env, order) && Admissible(env, call)
    requires call.tx.StakeStore? && Step(w, env, call) == Ok(w')
    ensures Valid(w', env, order)
  {
    Stores.StakeValid(w.stores, w.ledger, env.contracts.storeManager, call.sender,
                      env.streamExists(call.tx.stream), call.tx.stream, call.tx.amount);
  }

  lemma StakeQueryValid(w: World, env: Env, call: Call, w': World, order: seq<Address>)
    requires Valid(w, env, order) && Admissible(env, call)
    requires call.tx.StakeQuery? && Step(w, env, call) == Ok(w')
    ensures Valid(w', env, order)
  {
    Queries.StakeValid(w.queries, w.ledger, env.contracts.queryManager, call.sender, call.tx.amount);
  }

  lemma ProcessValid(w: World, env: Env, call: Call, w': World, order: seq<Address>)
    requires Valid(w, env, order) && Admissible(env, call)
    requires call.tx.ProcessReportOf? && Step(w, env, call) == Ok(w')
    ensures Valid(w', env, order)
  {
    ProcessedSolvent(w, env.contracts, call.sender, call.tx.id, w');
    ProcessedList(w, env.contracts, call.sender, call.tx.id, w', order);
  }

  lemma TransferValid(w: World, env: Env, call: Call, w': World, order: seq<Address>)
    requires Valid(w, env, order) && Admissible(env, call)
    requires call.tx.TransferTokens? && Step(w, env, call) == Ok(w')
    ensures Valid(w', env, order)
  {
    var debited := w.ledger[call.sender := Get(w.ledger, call.sender) - call.tx.amount];
    assert forall x: Address :: IsContract(env.contracts, x) ==> Get(debited, x) == Get(w.ledger, x);
    assert forall x: Address :: IsContract(env.contracts, x) ==> Get(w'.ledger, x) == Get(debited, x);
  }

  lemma StepValid(w: World, env: Env, call: Call, w': World, order: seq<Address>)
    requires Valid(w, env, order) && Admissible(env, call) && Step(w, env, call) == Ok(w')
    ensures Valid(w', env, OrderAfter(order, call))
  {
    match call.tx
    case StakeStore(_, _) => StakeStoreValid(w, env, call, w', order);
    case StakeQuery(_) => StakeQueryValid(w, env, call, w', order);
    case SubmitReport(_) =>
    case ProcessReportOf(_) => ProcessValid(w, env, call, w', order);
    case SetReportTimeBuffer(_) =>
    case TransferTokens(_, _) => TransferValid(w, env, call, w', order);
    case OnNode(_) => NodeTxValid(w, env, call, w', order);
  }

  lemma {:induction false} RunValid(w: World, env: Env, calls: seq<Call>, order: seq<Address>)
    requires Valid(w, env, order) && AllAdmissible(env, calls)
    ensures Valid(Run(w, env, calls), env, Members(w, env, calls, order))
    decreases |calls|
  {
    if calls != [] {
      assert Admissible(env, calls[0]);
      var w' := Apply(w, env, calls[0]);
      if Step(w, env, calls[0]).Ok? {
        StepValid(w, env, calls[0], w', order);
        RunValid(w', env, calls[1..], OrderAfter(order, calls[0]));
      } else {
        RunValid(w', env, calls[1..], order);
      }
    }
  }
}
