/** LogStoreNodeManager without its report processing: node list, whitelist, staking ledger and the
    publish permissions on the system stream. */
module NodeManager {
  import opened Evm
  import opened Mappings
  import opened Registry
  import opened Token

  datatype Whitelisting = None | Approved | Rejected

  datatype State = State(
    requiresWhitelist: bool,
    stakeRequiredAmount: Uint256,
    totalSupply: Uint256,
    treasurySupply: Uint256,
    list: List,
    whitelist: map<Address, Whitelisting>,
    balanceOf: map<Address, Uint256>,
    delegatesOf: map<(Address, Address), Uint256>,  // (delegate, node)
    permitted: set<Address>                         // who may publish to the system stream
  )

  /** The contract's storage together with the token ledger it moves tokens in. */
  datatype Funds = Funds(node: State, ledger: Ledger)

  function StakeOf(st: State, node: Address): Uint256 {
    At(st.list.nodes, node).stake
  }

  function IsStaked(st: State, node: Address): bool {
    st.stakeRequiredAmount > 0 && StakeOf(st, node) >= st.stakeRequiredAmount
  }

  function CheckAndGrantAccess(st: State, node: Address): State {
    st.(permitted := if StakeOf(st, node) >= st.stakeRequiredAmount then st.permitted + {node}
                     else st.permitted - {node})
  }

  /** Set a node's stake and bring its permission into line. */
  function SetStake(st: State, node: Address, stake: Uint256): State {
    CheckAndGrantAccess(st.(list := WithStake(st.list, node, stake)), node)
  }

  // ----- membership

  function Whitelisted(st: State, a: Address): Whitelisting {
    if a in st.whitelist then st.whitelist[a] else None
  }

  function UpsertNode(st: State, block: Block, a: Address, metadata: Bytes): Outcome<State> {
    var list :- Upsert(st.list, block, a, metadata);
    Ok(st.(list := list))
  }

  function UpsertOwn(st: State, block: Block, sender: Address, metadata: Bytes): Outcome<State> {
    var _ :- Require(!st.requiresWhitelist || Whitelisted(st, sender) == Approved, "error_notApproved");
    UpsertNode(st, block, sender, metadata)
  }

  function RemoveNode(st: State, a: Address): Outcome<State> {
    var list :- Remove(st.list, a);
    Ok(st.(list := list))
  }

  // ----- the staking ledger

  function Stake(f: Funds, self: Address, sender: Address, amount: Uint256): Outcome<Funds> {
    var _ :- Require(amount > 0, "error_insufficientStake");
    var _ :- Require(Get(f.ledger, sender) >= amount, "error_insufficientBalance");
    var balance :- Add(Get(f.node.balanceOf, sender), amount);
    var supply :- Add(f.node.totalSupply, amount);
    var ledger :- Transfer(f.ledger, sender, self, amount);
    Ok(Funds(f.node.(balanceOf := f.node.balanceOf[sender := balance], totalSupply := supply), ledger))
  }

  function Delegate(st: State, sender: Address, amount: Uint256, node: Address): Outcome<State> {
    var _ :- Require(amount > 0, "error_insufficientDelegateAmount");
    var _ :- Require(At(st.list.nodes, node).lastSeen > 0, "error_invalidNode");
    var balance :- Sub(Get(st.balanceOf, sender), amount);
    var delegated :- Add(Get(st.delegatesOf, (sender, node)), amount);
    var stake :- Add(StakeOf(st, node), amount);
    Ok(SetStake(st.(balanceOf := st.balanceOf[sender := balance],
                    delegatesOf := st.delegatesOf[(sender, node) := delegated]), node, stake))
  }

  function Undelegate(st: State, sender: Address, amount: Uint256, node: Address): Outcome<State> {
    var _ :- Require(amount > 0, "error_insufficientDelegateAmount");
    var _ :- Require(At(st.list.nodes, node).lastSeen > 0, "error_invalidNode");
    var delegated :- Sub(Get(st.delegatesOf, (sender, node)), amount);
    var stake :- Sub(StakeOf(st, node), amount);
    var balance :- Add(Get(st.balanceOf, sender), amount);
    Ok(SetStake(st.(balanceOf := st.balanceOf[sender := balance],
                    delegatesOf := st.delegatesOf[(sender, node) := delegated]), node, stake))
  }

  function Withdraw(f: Funds, self: Address, sender: Address, amount: Uint256): Outcome<Funds> {
    var _ :- Require(amount <= Get(f.node.balanceOf, sender), "error_notEnoughStake");
    var supply :- Sub(f.node.totalSupply, amount);
    var ledger :- Transfer(f.ledger, self, sender, amount);
    Ok(Funds(f.node.(balanceOf := f.node.balanceOf[sender := Get(f.node.balanceOf, sender) - amount],
                     totalSupply := supply), ledger))
  }

  function TreasuryWithdraw(f: Funds, self: Address, owner: Address, amount: Uint256): Outcome<Funds> {
    var _ :- Require(amount <= f.node.treasurySupply, "error_notEnoughStake");
    var supply :- Sub(f.node.totalSupply, amount);
    var ledger :- Transfer(f.ledger, self, owner, amount);
    Ok(Funds(f.node.(treasurySupply := f.node.treasurySupply - amount, totalSupply := supply), ledger))
  }

  // ----- compositions

  function StakeAndDelegate(f: Funds, self: Address, sender: Address, amount: Uint256, node: Address): Outcome<Funds> {
    var staked :- Stake(f, self, sender, amount);
    var st :- Delegate(staked.node, sender, amount, node);
    Ok(Funds(st, staked.ledger))
  }

  function UndelegateWithdraw(f: Funds, self: Address, sender: Address, amount: Uint256,
                              node: Address): Outcome<Funds> {
    var st :- Undelegate(f.node, sender, amount, node);
    Withdraw(Funds(st, f.ledger), self, sender, amount)
  }

  function Join(f: Funds, self: Address, block: Block, sender: Address, amount: Uint256,
                metadata: Bytes): Outcome<Funds> {
    var st :- UpsertOwn(f.node, block, sender, metadata);
    StakeAndDelegate(Funds(st, f.ledger), self, sender, amount, sender)
  }

  function Leave(f: Funds, self: Address, sender: Address): Outcome<Funds> {
    var st :- Undelegate(f.node, sender, Get(f.node.delegatesOf, (sender, sender)), sender);
    var withdrawn :- Withdraw(Funds(st, f.ledger), self, sender, Get(st.balanceOf, sender));
    var left :- RemoveNode(withdrawn.node, sender);
    Ok(Funds(left, withdrawn.ledger))
  }

  // ----- what the operations keep

  /** How far the single accounts and the recorded total are apart. */
  ghost function Imbalance(st: State): int {
    Sum(st.balanceOf) + Sum(st.delegatesOf) + st.treasurySupply - st.totalSupply
  }

  /** Whoever counts as staked may publish. */
  ghost predicate AccessInLine(st: State) {
    && st.stakeRequiredAmount > 0
    && forall a: Address :: StakeOf(st, a) >= st.stakeRequiredAmount ==> a in st.permitted
  }

  /** A node's stake is covered by what was delegated to it. */
  ghost predicate StakesCovered(st: State) {
    forall n: Address :: StakeOf(st, n) <= ColumnSum(st.delegatesOf, n)
  }

  ghost predicate StakeExact(st: State, n: Address) {
    StakeOf(st, n) == ColumnSum(st.delegatesOf, n)
  }

  /** The books after a step balance as they did before, and the permissions stay in line. */
  ghost predicate Keeps(f: Funds, f': Funds, self: Address) {
    && Imbalance(f'.node) == Imbalance(f.node)
    && f'.node.totalSupply - Get(f'.ledger, self) == f.node.totalSupply - Get(f.ledger, self)
    && (AccessInLine(f.node) ==> AccessInLine(f'.node))
    && (StakesCovered(f.node) ==> StakesCovered(f'.node))
  }

  /** Only the accounts of `a` and `b` moved. */
  ghost predicate OnlyBetween(ledger: Ledger, ledger': Ledger, a: Address, b: Address) {
    forall x: Address :: x != a && x != b ==> Get(ledger', x) == Get(ledger, x)
  }

  lemma StakeKeeps(f: Funds, self: Address, sender: Address, amount: Uint256, f': Funds)
    requires sender != self && Stake(f, self, sender, amount) == Ok(f')
    ensures Keeps(f, f', self) && OnlyBetween(f.ledger, f'.ledger, self, sender)
  {
    SumPut(f.node.balanceOf, sender, Get(f.node.balanceOf, sender) + amount);
  }

  lemma WithdrawKeeps(f: Funds, self: Address, sender: Address, amount: Uint256, f': Funds)
    requires sender != self && Withdraw(f, self, sender, amount) == Ok(f')
    ensures Keeps(f, f', self) && OnlyBetween(f.ledger, f'.ledger, self, sender)
  {
    SumPut(f.node.balanceOf, sender, Get(f.node.balanceOf, sender) - amount);
  }

  lemma TreasuryWithdrawKeeps(f: Funds, self: Address, owner: Address, amount: Uint256, f': Funds)
    requires owner != self && TreasuryWithdraw(f, self, owner, amount) == Ok(f')
    ensures Keeps(f, f', self) && OnlyBetween(f.ledger, f'.ledger, self, owner)
  {
  }

  /** `st'` is `st` with `amount` moved from a balance to a delegation (or back, if negative). */
  ghost predicate Moved(st: State, sender: Address, node: Address, amount: int, st': State) {
    && 0 <= Get(st.balanceOf, sender) - amount <= UINT256_MAX
    && 0 <= Get(st.delegatesOf, (sender, node)) + amount <= UINT256_MAX
    && 0 <= StakeOf(st, node) + amount <= UINT256_MAX
    && st'.balanceOf == st.balanceOf[sender := Get(st.balanceOf, sender) - amount]
    && st'.delegatesOf == st.delegatesOf[(sender, node) := Get(st.delegatesOf, (sender, node)) + amount]
    && st'.list == WithStake(st.list, node, StakeOf(st, node) + amount)
    && st' == CheckAndGrantAccess(st.(balanceOf := st'.balanceOf, delegatesOf := st'.delegatesOf, list := st'.list),
                                  node)
  }

  lemma MovedKeeps(st: State, ledger: Ledger, self: Address, sender: Address, node: Address, amount: int, st': State)
    requires Moved(st, sender, node, amount, st')
    ensures Keeps(Funds(st, ledger), Funds(st', ledger), self)
    ensures forall n: Address :: StakeExact(st, n) ==> StakeExact(st', n)
  {
    MovedBalance(st, sender, node, amount, st');
    MovedStakes(st, sender, node, amount, st');
  }

  lemma MovedBalance(st: State, sender: Address, node: Address, amount: int, st': State)
    requires Moved(st, sender, node, amount, st')
    ensures Imbalance(st') == Imbalance(st)
    ensures AccessInLine(st) ==> AccessInLine(st')
  {
    SumPut(st.balanceOf, sender, Get(st.balanceOf, sender) - amount);
    SumPut(st.delegatesOf, (sender, node), Get(st.delegatesOf, (sender, node)) + amount);
  }

  lemma MovedStakes(st: State, sender: Address, node: Address, amount: int, st': State)
    requires Moved(st, sender, node, amount, st')
    ensures forall n: Address ::
              ColumnSum(st'.delegatesOf, n) - StakeOf(st', n) == ColumnSum(st.delegatesOf, n) - StakeOf(st, n)
  {
    forall n: Address
      ensures ColumnSum(st'.delegatesOf, n) - StakeOf(st', n) == ColumnSum(st.delegatesOf, n) - StakeOf(st, n)
    {
      ColumnSumPut(st.delegatesOf, (sender, node), Get(st.delegatesOf, (sender, node)) + amount, n);
    }
  }

  lemma DelegateKeeps(f: Funds, self: Address, sender: Address, amount: Uint256, node: Address, st': State)
    requires Delegate(f.node, sender, amount, node) == Ok(st')
    ensures Keeps(f, f.(node := st'), self)
    ensures forall n: Address :: StakeExact(f.node, n) ==> StakeExact(st', n)
  {
    MovedKeeps(f.node, f.ledger, self, sender, node, amount, st');
  }

  lemma UndelegateKeeps(f: Funds, self: Address, sender: Address, amount: Uint256, node: Address, st': State)
    requires Undelegate(f.node, sender, amount, node) == Ok(st')
    ensures Keeps(f, f.(node := st'), self)
    ensures forall n: Address :: StakeExact(f.node, n) ==> StakeExact(st', n)
  {
    var moved: int := amount;
    MovedKeeps(f.node, f.ledger, self, sender, node, -moved, st');
  }

  lemma UpsertStake(r: List, block: Block, a: Address, metadata: Bytes, x: Address)
    requires Upsert(r, block, a, metadata).Ok?
    ensures At(Upsert(r, block, a, metadata).value.nodes, x).stake == At(r.nodes, x).stake
  {
  }

  /** Removing a node forgets its stake and nobody else's. */
  lemma RemoveStake(r: List, a: Address, x: Address)
    requires Remove(r, a).Ok?
    ensures At(Remove(r, a).value.nodes, x).stake == if x == a then 0 else At(r.nodes, x).stake
  {
  }

  lemma UpsertKeeps(f: Funds, self: Address, block: Block, a: Address, metadata: Bytes, st': State)
    requires UpsertNode(f.node, block, a, metadata) == Ok(st')
    ensures Keeps(f, f.(node := st'), self)
    ensures forall n: Address :: StakeOf(st', n) == StakeOf(f.node, n)
  {
    forall x: Address ensures StakeOf(st', x) == StakeOf(f.node, x) {
      UpsertStake(f.node.list, block, a, metadata, x);
    }
  }

  lemma RemoveKeeps(f: Funds, self: Address, a: Address, st': State)
    requires RemoveNode(f.node, a) == Ok(st')
    ensures Keeps(f, f.(node := st'), self)
    ensures forall n: Address :: StakeOf(st', n) == if n == a then 0 else StakeOf(f.node, n)
  {
    forall x: Address ensures StakeOf(st', x) == if x == a then 0 else StakeOf(f.node, x) {
      RemoveStake(f.node.list, a, x);
    }
  }
}
