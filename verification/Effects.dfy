/** What each operation of the staking ledger and the node list does to every single account, and when it succeeds. */
module Effects {
  import opened Evm
  import opened Mappings
  import opened NodeManager
  import opened Registry
  import opened Token

  /** One entry has moved by `delta`, all the others are as they were. */
  ghost predicate Shifted<K(!new)>(m: map<K, Uint256>, m': map<K, Uint256>, k: K, delta: int) {
    forall x: K :: Get(m', x) == Get(m, x) + if x == k then delta else 0
  }

  ghost predicate Unshifted<K(!new)>(m: map<K, Uint256>, m': map<K, Uint256>) {
    forall x: K :: Get(m', x) == Get(m, x)
  }

  /** `amount` tokens have gone from one account to another. */
  ghost predicate Paid(ledger: Ledger, ledger': Ledger, from: Address, to: Address, amount: int) {
    forall x: Address ::
      Get(ledger', x) == Get(ledger, x) + (if x == to then amount else 0) - if x == from then amount else 0
  }

  predicate CanPay(ledger: Ledger, from: Address, to: Address, amount: int) {
    amount <= Get(ledger, from) && Get(ledger, to) + amount <= UINT256_MAX
  }

  /** One node's stake has moved by `delta` and its permission follows; nothing else about any node has changed. */
  ghost predicate Restaked(st: State, st': State, node: Address, delta: int) {
    && st'.list == st.list.(nodes := st'.list.nodes)
    && StakeOf(st', node) == StakeOf(st, node) + delta
    && (forall x: Address :: At(st'.list.nodes, x) == At(st.list.nodes, x).(stake := StakeOf(st', x)))
    && (forall x: Address :: x != node ==> StakeOf(st', x) == StakeOf(st, x))
    && (node in st'.permitted <==> StakeOf(st', node) >= st.stakeRequiredAmount)
    && (forall x: Address :: x != node ==> (x in st'.permitted <==> x in st.permitted))
  }

  lemma PaidIff(ledger: Ledger, from: Address, to: Address, amount: Uint256)
    requires from != to
    ensures Transfer(ledger, from, to, amount).Ok? <==> CanPay(ledger, from, to, amount)
    ensures Transfer(ledger, from, to, amount).Ok? ==>
              Paid(ledger, Transfer(ledger, from, to, amount).value, from, to, amount)
  {
  }

  // ----- stake and withdraw

  predicate CanStake(f: Funds, self: Address, sender: Address, amount: int) {
    && amount > 0
    && CanPay(f.ledger, sender, self, amount)
    && Get(f.node.balanceOf, sender) + amount <= UINT256_MAX
    && f.node.totalSupply + amount <= UINT256_MAX
  }

  /** Staking credits the sender, and nobody else, with what it pays. */
  lemma StakeEffect(f: Funds, self: Address, sender: Address, amount: Uint256)
    requires sender != self
    ensures Stake(f, self, sender, amount).Ok? <==> CanStake(f, self, sender, amount)
    ensures Stake(f, self, sender, amount).Ok? ==>
              var f' := Stake(f, self, sender, amount).value;
              && Shifted(f.node.balanceOf, f'.node.balanceOf, sender, amount)
              && Paid(f.ledger, f'.ledger, sender, self, amount)
              && f'.node == f.node.(balanceOf := f'.node.balanceOf, totalSupply := f.node.totalSupply + amount)
  {
    PaidIff(f.ledger, sender, self, amount);
  }

  predicate CanWithdraw(f: Funds, self: Address, sender: Address, amount: int) {
    amount <= Get(f.node.balanceOf, sender) && amount <= f.node.totalSupply && CanPay(f.ledger, self, sender, amount)
  }

  /** Withdrawing debits the sender, and nobody else, with what it is paid. */
  lemma WithdrawEffect(f: Funds, self: Address, sender: Address, amount: Uint256)
    requires sender != self
    ensures Withdraw(f, self, sender, amount).Ok? <==> CanWithdraw(f, self, sender, amount)
    ensures Withdraw(f, self, sender, amount).Ok? ==>
              var f', debit: int := Withdraw(f, self, sender, amount).value, amount;
              && Shifted(f.node.balanceOf, f'.node.balanceOf, sender, -debit)
              && Paid(f.ledger, f'.ledger, self, sender, amount)
              && f'.node == f.node.(balanceOf := f'.node.balanceOf, totalSupply := f.node.totalSupply - amount)
  {
    PaidIff(f.ledger, self, sender, amount);
  }

  /** The treasury pays its owner and touches no account. */
  lemma TreasuryEffect(f: Funds, self: Address, owner: Address, amount: Uint256)
    requires owner != self
    ensures TreasuryWithdraw(f, self, owner, amount).Ok?
       <==> && amount <= f.node.treasurySupply && amount <= f.node.totalSupply
            && CanPay(f.ledger, self, owner, amount)
    ensures TreasuryWithdraw(f, self, owner, amount).Ok? ==>
              var f' := TreasuryWithdraw(f, self, owner, amount).value;
              && Paid(f.ledger, f'.ledger, self, owner, amount)
              && f'.node == f.node.(treasurySupply := f.node.treasurySupply - amount,
                                    totalSupply := f.node.totalSupply - amount)
  {
    PaidIff(f.ledger, self, owner, amount);
  }

  // ----- delegate and undelegate

  predicate CanDelegate(st: State, sender: Address, amount: int, node: Address) {
    && amount > 0 && At(st.list.nodes, node).lastSeen > 0
    && amount <= Get(st.balanceOf, sender)
    && Get(st.delegatesOf, (sender, node)) + amount <= UINT256_MAX
    && StakeOf(st, node) + amount <= UINT256_MAX
  }

  /** `amount` has gone from the sender's balance to its delegation to `node`, and to that node's stake; or back,
      if it is negative. */
  ghost predicate Delegated(st: State, st': State, sender: Address, amount: int, node: Address) {
    && Shifted(st.balanceOf, st'.balanceOf, sender, -amount)
    && Shifted(st.delegatesOf, st'.delegatesOf, (sender, node), amount)
    && Restaked(st, st', node, amount)
    && st' == st.(balanceOf := st'.balanceOf, delegatesOf := st'.delegatesOf, list := st'.list,
                  permitted := st'.permitted)
  }

  lemma DelegateEffect(st: State, sender: Address, amount: Uint256, node: Address)
    ensures Delegate(st, sender, amount, node).Ok? <==> CanDelegate(st, sender, amount, node)
    ensures Delegate(st, sender, amount, node).Ok? ==>
              Delegated(st, Delegate(st, sender, amount, node).value, sender, amount, node)
  {
  }

  predicate CanUndelegate(st: State, sender: Address, amount: int, node: Address) {
    && amount > 0 && At(st.list.nodes, node).lastSeen > 0
    && amount <= Get(st.delegatesOf, (sender, node))
    && amount <= StakeOf(st, node)
    && Get(st.balanceOf, sender) + amount <= UINT256_MAX
  }

  lemma UndelegateEffect(st: State, sender: Address, amount: Uint256, node: Address)
    ensures Undelegate(st, sender, amount, node).Ok? <==> CanUndelegate(st, sender, amount, node)
    ensures Undelegate(st, sender, amount, node).Ok? ==>
              var back: int := amount;
              Delegated(st, Undelegate(st, sender, amount, node).value, sender, -back, node)
  {
  }

  // ----- in one transaction

  /** Staking and delegating takes the sender's tokens straight into its delegation. */
  lemma StakeAndDelegateEffect(f: Funds, self: Address, sender: Address, amount: Uint256, node: Address)
    requires sender != self
    ensures StakeAndDelegate(f, self, sender, amount, node).Ok?
       <==> && CanStake(f, self, sender, amount) && At(f.node.list.nodes, node).lastSeen > 0
            && Get(f.node.delegatesOf, (sender, node)) + amount <= UINT256_MAX
            && StakeOf(f.node, node) + amount <= UINT256_MAX
    ensures StakeAndDelegate(f, self, sender, amount, node).Ok? ==>
              var f' := StakeAndDelegate(f, self, sender, amount, node).value;
              && StakedInto(f.node, f'.node, sender, amount, node)
              && Paid(f.ledger, f'.ledger, sender, self, amount)
  {
    StakeEffect(f, self, sender, amount);
    if CanStake(f, self, sender, amount) {
      DelegateEffect(Stake(f, self, sender, amount).value.node, sender, amount, node);
    }
  }

  /** `amount` has come in from outside (or gone out, if it is negative) and is the sender's delegation to `node`. */
  ghost predicate StakedInto(st: State, st': State, sender: Address, amount: int, node: Address) {
    && Unshifted(st.balanceOf, st'.balanceOf)
    && Shifted(st.delegatesOf, st'.delegatesOf, (sender, node), amount)
    && Restaked(st, st', node, amount)
    && st'.totalSupply == st.totalSupply + amount
    && st' == st.(balanceOf := st'.balanceOf, delegatesOf := st'.delegatesOf, list := st'.list,
                  permitted := st'.permitted, totalSupply := st'.totalSupply)
  }

  /** What can be undelegated can be withdrawn in the same transaction, by the account that had delegated it. */
  lemma UndelegateWithdrawEffect(f: Funds, self: Address, sender: Address, amount: Uint256, node: Address)
    requires sender != self
    ensures UndelegateWithdraw(f, self, sender, amount, node).Ok?
       <==> && CanUndelegate(f.node, sender, amount, node)
            && amount <= f.node.totalSupply && CanPay(f.ledger, self, sender, amount)
    ensures UndelegateWithdraw(f, self, sender, amount, node).Ok? ==>
              var f', back: int := UndelegateWithdraw(f, self, sender, amount, node).value, amount;
              && StakedInto(f.node, f'.node, sender, -back, node)
              && Paid(f.ledger, f'.ledger, self, sender, amount)
  {
    UndelegateEffect(f.node, sender, amount, node);
    if CanUndelegate(f.node, sender, amount, node) {
      WithdrawEffect(Funds(Undelegate(f.node, sender, amount, node).value, f.ledger), self, sender, amount);
    }
  }

  // ----- the node list

  /** `a` has the given metadata and time of last sight; of all the others everything but the links is as it was. */
  ghost predicate Upserted(r: List, r': List, block: Block, a: Address, metadata: Bytes) {
    var isNew := At(r.nodes, a).lastSeen == 0;
    && At(r'.nodes, a).metadata == metadata && At(r'.nodes, a).lastSeen == block.timestamp
    && At(r'.nodes, a).stake == At(r.nodes, a).stake
    && At(r'.nodes, a).index == (if isNew && r.headNode != NO_ADDRESS then r.totalNodes else At(r.nodes, a).index)
    && (forall x: Address :: x != a ==> SameRecord(At(r.nodes, x), At(r'.nodes, x)))
    && r'.totalNodes == r.totalNodes + (if isNew then 1 else 0)
    && r'.startBlockNumber == if isNew && r.headNode == NO_ADDRESS then block.number else r.startBlockNumber
  }

  predicate SameRecord(n: Node, n': Node) {
    n' == n.(next := n'.next, prev := n'.prev)
  }

  lemma UpsertEffect(r: List, block: Block, a: Address, metadata: Bytes)
    ensures Upsert(r, block, a, metadata).Ok? <==> At(r.nodes, a).lastSeen != 0 || r.totalNodes < UINT256_MAX
    ensures Upsert(r, block, a, metadata).Ok? ==>
              Upserted(r, Upsert(r, block, a, metadata).value, block, a, metadata)
  {
  }

  /** A registered node that is upserted again keeps its place and its links, and stores the new metadata. */
  lemma SecondUpsert(r: List, block: Block, a: Address, metadata: Bytes)
    requires At(r.nodes, a).lastSeen != 0
    ensures Upsert(r, block, a, metadata).Ok?
    ensures var r' := Upsert(r, block, a, metadata).value;
            && At(r'.nodes, a) == At(r.nodes, a).(metadata := metadata, lastSeen := block.timestamp)
            && (forall x: Address :: x != a ==> At(r'.nodes, x) == At(r.nodes, x))
            && r' == r.(nodes := r'.nodes)
  {
  }

  /** The record of `a` is blank; of all the others everything but the links is as it was. */
  ghost predicate Erased(r: List, r': List, a: Address) {
    && At(r'.nodes, a) == Node(0, [], 0, NO_ADDRESS, NO_ADDRESS, 0)
    && (forall x: Address :: x != a ==> SameRecord(At(r.nodes, x), At(r'.nodes, x)))
    && r'.totalNodes == r.totalNodes - 1
    && r'.startBlockNumber == if r'.headNode == NO_ADDRESS then 0 else r.startBlockNumber
  }

  lemma RemoveEffect(r: List, a: Address)
    ensures Remove(r, a).Ok? <==> At(r.nodes, a).lastSeen != 0 && r.totalNodes > 0
    ensures Remove(r, a).Ok? ==> Erased(r, Remove(r, a).value, a)
  {
  }

  // ----- joining and leaving

  predicate MayRegister(st: State, sender: Address) {
    !st.requiresWhitelist || (sender in st.whitelist && st.whitelist[sender] == Approved)
  }

  /** Joining registers the sender, if it is allowed to, and takes its tokens into a delegation to itself. */
  lemma JoinEffect(f: Funds, self: Address, block: Block, sender: Address, amount: Uint256, metadata: Bytes)
    requires sender != self && block.timestamp > 0
    ensures Join(f, self, block, sender, amount, metadata).Ok?
       <==> && MayRegister(f.node, sender)
            && (At(f.node.list.nodes, sender).lastSeen != 0 || f.node.list.totalNodes < UINT256_MAX)
            && CanStake(f, self, sender, amount)
            && Get(f.node.delegatesOf, (sender, sender)) + amount <= UINT256_MAX
            && StakeOf(f.node, sender) + amount <= UINT256_MAX
    ensures Join(f, self, block, sender, amount, metadata).Ok? ==>
              var f' := Join(f, self, block, sender, amount, metadata).value;
              exists st: State :: && Upserted(f.node.list, st.list, block, sender, metadata)
                           && st == f.node.(list := st.list)
                           && StakedInto(st, f'.node, sender, amount, sender)
                           && Paid(f.ledger, f'.ledger, sender, self, amount)
  {
    UpsertEffect(f.node.list, block, sender, metadata);
    if UpsertOwn(f.node, block, sender, metadata).Ok? {
      var st := UpsertOwn(f.node, block, sender, metadata).value;
      StakeAndDelegateEffect(Funds(st, f.ledger), self, sender, amount, sender);
    }
  }

  /** Leaving pays the sender its delegation to itself and its balance, and erases its record. */
  lemma LeaveEffect(f: Funds, self: Address, sender: Address)
    requires sender != self
    ensures var delegated, balance := Get(f.node.delegatesOf, (sender, sender)), Get(f.node.balanceOf, sender);
            Leave(f, self, sender).Ok?
            <==> && CanUndelegate(f.node, sender, delegated, sender)
                 && balance + delegated <= f.node.totalSupply
                 && CanPay(f.ledger, self, sender, balance + delegated)
                 && f.node.list.totalNodes > 0
    ensures Leave(f, self, sender).Ok? ==>
              var f', delegated: int := Leave(f, self, sender).value, Get(f.node.delegatesOf, (sender, sender));
              var balance: int := Get(f.node.balanceOf, sender);
              && Shifted(f.node.balanceOf, f'.node.balanceOf, sender, -balance)
              && Shifted(f.node.delegatesOf, f'.node.delegatesOf, (sender, sender), -delegated)
              && Paid(f.ledger, f'.ledger, self, sender, balance + delegated)
              && f'.node.totalSupply == f.node.totalSupply - balance - delegated
              && Erased(f.node.list, f'.node.list, sender)
              && (sender in f'.node.permitted <==> StakeOf(f.node, sender) - delegated >= f.node.stakeRequiredAmount)
              && (forall x: Address :: x != sender ==> (x in f'.node.permitted <==> x in f.node.permitted))
              && f'.node == f.node.(balanceOf := f'.node.balanceOf, delegatesOf := f'.node.delegatesOf,
                                    totalSupply := f'.node.totalSupply, list := f'.node.list,
                                    permitted := f'.node.permitted)
  {
    var delegated := Get(f.node.delegatesOf, (sender, sender));
    UndelegateEffect(f.node, sender, delegated, sender);
    if CanUndelegate(f.node, sender, delegated, sender) {
      var st := Undelegate(f.node, sender, delegated, sender).value;
      var all := Get(st.balanceOf, sender);
      WithdrawEffect(Funds(st, f.ledger), self, sender, all);
      if CanWithdraw(Funds(st, f.ledger), self, sender, all) {
        var withdrawn := Withdraw(Funds(st, f.ledger), self, sender, all).value;
        RemoveEffect(withdrawn.node.list, sender);
      }
    }
  }
}
