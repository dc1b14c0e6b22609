/** Every kind of transaction: exactly when it succeeds, and what it does to every single account. */
module Transactions {
  import opened Effects
  import opened Evm
  import opened Mappings
  import opened NodeManager
  import opened Protocol
  import opened Registry
  import opened Settlement
  import opened Token

  import Fees
  import Queries
  import ReportManager
  import Stores

  // ----- the node manager

  ghost predicate SameBooks(f: Funds, f': Funds) {
    && f'.ledger == f.ledger
    && f'.node == f.node.(list := f'.node.list, whitelist := f'.node.whitelist,
                          requiresWhitelist := f'.node.requiresWhitelist)
  }

  ghost predicate SameWhitelist(st: State, st': State) {
    st'.whitelist == st.whitelist && st'.requiresWhitelist == st.requiresWhitelist
  }

  /** Only the entry of `a` has changed, to `to`. */
  ghost predicate Listed(st: State, st': State, a: Address, to: Whitelisting) {
    && a in st'.whitelist && st'.whitelist[a] == to
    && st'.requiresWhitelist == st.requiresWhitelist
    && forall x: Address :: x != a ==>
         (x in st'.whitelist <==> x in st.whitelist) && (x in st.whitelist ==> st'.whitelist[x] == st.whitelist[x])
  }

  /** The actions that change who is a node, or who may become one. */
  ghost predicate MayAdminister(f: Funds, owner: Address, sender: Address, action: Action)
    requires IsMembership(action)
  {
    var r := f.node.list;
    match action
    case UpsertOwnNode(_) =>
      MayRegister(f.node, sender) && (At(r.nodes, sender).lastSeen != 0 || r.totalNodes < UINT256_MAX)
    case UpsertNodeAdmin(node, _) => sender == owner && (At(r.nodes, node).lastSeen != 0 || r.totalNodes < UINT256_MAX)
    case RemoveOwnNode => At(r.nodes, sender).lastSeen != 0 && r.totalNodes > 0
    case RemoveNodeAdmin(node) => sender == owner && At(r.nodes, node).lastSeen != 0 && r.totalNodes > 0
    case KickNode(node) => sender == owner && At(r.nodes, node).lastSeen != 0 && r.totalNodes > 0
    case WhitelistApproveNode(_) => sender == owner
    case WhitelistRejectNode(_) => sender == owner
    case SetRequiresWhitelist(_) => sender == owner
  }

  ghost predicate Administered(f: Funds, sender: Address, block: Block, action: Action, f': Funds)
    requires IsMembership(action)
  {
    var r, r' := f.node.list, f'.node.list;
    match action
    case UpsertOwnNode(metadata) => Upserted(r, r', block, sender, metadata) && SameWhitelist(f.node, f'.node)
    case UpsertNodeAdmin(node, metadata) => Upserted(r, r', block, node, metadata) && SameWhitelist(f.node, f'.node)
    case RemoveOwnNode => Erased(r, r', sender) && SameWhitelist(f.node, f'.node)
    case RemoveNodeAdmin(node) => Erased(r, r', node) && SameWhitelist(f.node, f'.node)
    case KickNode(node) => Erased(r, r', node) && Listed(f.node, f'.node, node, Rejected)
    case WhitelistApproveNode(node) => r' == r && Listed(f.node, f'.node, node, Approved)
    case WhitelistRejectNode(node) => r' == r && Listed(f.node, f'.node, node, Rejected)
    case SetRequiresWhitelist(required) =>
      r' == r && f'.node.whitelist == f.node.whitelist && f'.node.requiresWhitelist == required
  }

  /** Membership changes move no token and no stake. An unapproved account cannot register while the whitelist is
      required; only the owner registers, removes, kicks, approves or rejects others. */
  lemma MembershipEffect(f: Funds, env: Env, sender: Address, block: Block, action: Action)
    requires IsMembership(action)
    ensures NodeTx(f, env, sender, block, action).Ok? <==> MayAdminister(f, env.contracts.owner, sender, action)
    ensures NodeTx(f, env, sender, block, action).Ok? ==>
              && Administered(f, sender, block, action, NodeTx(f, env, sender, block, action).value)
              && SameBooks(f, NodeTx(f, env, sender, block, action).value)
  {
    match action
    case UpsertOwnNode(metadata) => UpsertEffect(f.node.list, block, sender, metadata);
    case UpsertNodeAdmin(node, metadata) => UpsertEffect(f.node.list, block, node, metadata);
    case RemoveOwnNode => RemoveEffect(f.node.list, sender);
    case RemoveNodeAdmin(node) => RemoveEffect(f.node.list, node);
    case KickNode(node) => RemoveEffect(f.node.list, node);
    case _ =>
  }

  /** The transactions on the ledger are carried out for their sender, with the amounts and the node they name. */
  lemma StakeTx(f: Funds, env: Env, sender: Address, block: Block, amount: Uint256)
    requires sender != env.contracts.nodeManager
    ensures var self, r := env.contracts.nodeManager, NodeTx(f, env, sender, block, StakeTokens(amount));
            && (r.Ok? <==> CanStake(f, self, sender, amount))
            && (r.Ok? ==>
                  && Shifted(f.node.balanceOf, r.value.node.balanceOf, sender, amount)
                  && Paid(f.ledger, r.value.ledger, sender, self, amount)
                  && r.value.node == f.node.(balanceOf := r.value.node.balanceOf,
                                             totalSupply := f.node.totalSupply + amount))
  {
    StakeEffect(f, env.contracts.nodeManager, sender, amount);
  }

  lemma WithdrawTx(f: Funds, env: Env, sender: Address, block: Block, amount: Uint256)
    requires sender != env.contracts.nodeManager
    ensures var self, r := env.contracts.nodeManager, NodeTx(f, env, sender, block, WithdrawTokens(amount));
            var debit: int := amount;
            && (r.Ok? <==> CanWithdraw(f, self, sender, amount))
            && (r.Ok? ==>
                  && Shifted(f.node.balanceOf, r.value.node.balanceOf, sender, -debit)
                  && Paid(f.ledger, r.value.ledger, self, sender, amount)
                  && r.value.node == f.node.(balanceOf := r.value.node.balanceOf,
                                             totalSupply := f.node.totalSupply - amount))
  {
    WithdrawEffect(f, env.contracts.nodeManager, sender, amount);
  }

  lemma TreasuryTx(f: Funds, env: Env, sender: Address, block: Block, amount: Uint256)
    requires sender != env.contracts.nodeManager
    ensures var self, r := env.contracts.nodeManager, NodeTx(f, env, sender, block, WithdrawTreasury(amount));
            && (r.Ok? <==>
                  && sender == env.contracts.owner
                  && amount <= f.node.treasurySupply && amount <= f.node.totalSupply
                  && CanPay(f.ledger, self, sender, amount))
            && (r.Ok? ==>
                  && Paid(f.ledger, r.value.ledger, self, sender, amount)
                  && r.value.node == f.node.(treasurySupply := f.node.treasurySupply - amount,
                                             totalSupply := f.node.totalSupply - amount))
  {
    TreasuryEffect(f, env.contracts.nodeManager, sender, amount);
  }

  lemma DelegationTx(f: Funds, env: Env, sender: Address, block: Block, amount: Uint256, node: Address)
    ensures var r := NodeTx(f, env, sender, block, DelegateStake(amount, node));
            && (r.Ok? <==> CanDelegate(f.node, sender, amount, node))
            && (r.Ok? ==> r.value.ledger == f.ledger && Delegated(f.node, r.value.node, sender, amount, node))
    ensures var r, back: int := NodeTx(f, env, sender, block, UndelegateStake(amount, node)), amount;
            && (r.Ok? <==> CanUndelegate(f.node, sender, amount, node))
            && (r.Ok? ==> r.value.ledger == f.ledger && Delegated(f.node, r.value.node, sender, -back, node))
  {
    DelegateEffect(f.node, sender, amount, node);
    UndelegateEffect(f.node, sender, amount, node);
  }

  lemma StakeDelegateTx(f: Funds, env: Env, sender: Address, block: Block, amount: Uint256, node: Address)
    requires sender != env.contracts.nodeManager
    ensures var self, r := env.contracts.nodeManager, NodeTx(f, env, sender, block, StakeDelegate(amount, node));
            && (r.Ok? <==>
                  && CanStake(f, self, sender, amount) && At(f.node.list.nodes, node).lastSeen > 0
                  && Get(f.node.delegatesOf, (sender, node)) + amount <= UINT256_MAX
                  && StakeOf(f.node, node) + amount <= UINT256_MAX)
            && (r.Ok? ==>
                  && StakedInto(f.node, r.value.node, sender, amount, node)
                  && Paid(f.ledger, r.value.ledger, sender, self, amount))
  {
    StakeAndDelegateEffect(f, env.contracts.nodeManager, sender, amount, node);
  }

  lemma UndelegateWithdrawTx(f: Funds, env: Env, sender: Address, block: Block, amount: Uint256, node: Address)
    requires sender != env.contracts.nodeManager
    ensures var self, r := env.contracts.nodeManager, NodeTx(f, env, sender, block, UndelegateWithdrawal(amount, node));
            var back: int := amount;
            && (r.Ok? <==>
                  && CanUndelegate(f.node, sender, amount, node)
                  && amount <= f.node.totalSupply && CanPay(f.ledger, self, sender, amount))
            && (r.Ok? ==>
                  && StakedInto(f.node, r.value.node, sender, -back, node)
                  && Paid(f.ledger, r.value.ledger, self, sender, amount))
  {
    UndelegateWithdrawEffect(f, env.contracts.nodeManager, sender, amount, node);
  }

  /** Joining and leaving are the sender's own, whatever `JoinEffect` and `LeaveEffect` say of them. */
  lemma JoinLeaveTx(f: Funds, env: Env, sender: Address, block: Block, amount: Uint256, metadata: Bytes)
    ensures NodeTx(f, env, sender, block, JoinNetwork(amount, metadata))
         == Join(f, env.contracts.nodeManager, block, sender, amount, metadata)
    ensures NodeTx(f, env, sender, block, LeaveNetwork) == Leave(f, env.contracts.nodeManager, sender)
  {
  }

  /** A transaction on the node manager's own books touches nothing but them and the tokens. */
  lemma OnNodeFrame(w: World, env: Env, call: Call)
    requires call.tx.OnNode?
    ensures var r := NodeTx(Funds(w.node, w.ledger), env, call.sender, call.block, call.tx.action);
            && (Step(w, env, call).Ok? <==> r.Ok?)
            && (r.Ok? ==> Step(w, env, call) == Ok(w.(node := r.value.node, ledger := r.value.ledger)))
  {
  }

  // ----- the escrows

  /** Staking on a stream is possible on existing streams only, and credits the sender's stake in that stream. */
  lemma StakeStoreTx(w: World, env: Env, call: Call)
    requires call.tx.StakeStore? && call.sender != env.contracts.storeManager
    ensures var user, stream, amount := call.sender, call.tx.stream, call.tx.amount;
            var st, self := w.stores, env.contracts.storeManager;
            Step(w, env, call).Ok? <==>
              && env.streamExists(stream) && amount > 0 && CanPay(w.ledger, user, self, amount)
              && Get(st.stores, stream) + amount <= UINT256_MAX && Get(st.balanceOf, user) + amount <= UINT256_MAX
              && Get(st.storeBalanceOf, (user, stream)) + amount <= UINT256_MAX
              && st.totalSupply + amount <= UINT256_MAX
  {
    PaidIff(w.ledger, call.sender, env.contracts.storeManager, call.tx.amount);
  }

  lemma StakeStoreEffect(w: World, env: Env, call: Call, w': World)
    requires call.tx.StakeStore? && call.sender != env.contracts.storeManager && Step(w, env, call) == Ok(w')
    ensures var user, stream, amount := call.sender, call.tx.stream, call.tx.amount;
            var st, st' := w.stores, w'.stores;
            && w' == w.(stores := st', ledger := w'.ledger)
            && Paid(w.ledger, w'.ledger, user, env.contracts.storeManager, amount)
            && Shifted(st.stores, st'.stores, stream, amount)
            && Shifted(st.balanceOf, st'.balanceOf, user, amount)
            && Shifted(st.storeBalanceOf, st'.storeBalanceOf, (user, stream), amount)
            && (forall s: Bytes :: Stores.Stakeholders(st', s)
                  == Stores.Stakeholders(st, s)
                   + if s == stream && Get(st.storeBalanceOf, (user, stream)) == 0 then [user] else [])
            && st' == st.(stores := st'.stores, balanceOf := st'.balanceOf, storeBalanceOf := st'.storeBalanceOf,
                          storeStakeholders := st'.storeStakeholders, totalSupply := st.totalSupply + amount)
  {
    PaidIff(w.ledger, call.sender, env.contracts.storeManager, call.tx.amount);
  }

  /** Staking for queries credits the sender, and no other consumer. */
  lemma StakeQueryTx(w: World, env: Env, call: Call)
    requires call.tx.StakeQuery? && call.sender != env.contracts.queryManager
    ensures var amount, st, self := call.tx.amount, w.queries, env.contracts.queryManager;
            Step(w, env, call).Ok? <==>
              && amount > 0 && CanPay(w.ledger, call.sender, self, amount)
              && Get(st.balanceOf, call.sender) + amount <= UINT256_MAX && st.totalSupply + amount <= UINT256_MAX
    ensures Step(w, env, call).Ok? ==>
              var w', amount := Step(w, env, call).value, call.tx.amount;
              && w' == w.(queries := w'.queries, ledger := w'.ledger)
              && Paid(w.ledger, w'.ledger, call.sender, env.contracts.queryManager, amount)
              && Shifted(w.queries.balanceOf, w'.queries.balanceOf, call.sender, amount)
              && w'.queries == w.queries.(balanceOf := w'.queries.balanceOf,
                                          totalSupply := w.queries.totalSupply + amount)
  {
    PaidIff(w.ledger, call.sender, env.contracts.queryManager, call.tx.amount);
  }

  // ----- captures

  /** Nobody but the node manager captures. */
  lemma OnlyParentCaptures(stores: Stores.State, queries: Queries.State, ledger: Ledger, self: Address, parent: Address,
                           caller: Address, stream: Bytes, consumer: Address, amount: Uint256)
    requires caller != parent
    ensures Stores.Capture(stores, ledger, self, parent, caller, stream, amount) == Revert("error_onlyParent")
    ensures Queries.Capture(queries, ledger, self, parent, caller, consumer, amount) == Revert("error_onlyParent")
  {
  }

  /** A capture from a consumer takes the amount, or all there is, off that consumer's balance and pays it to the node
      manager. */
  lemma CaptureQueryEffect(st: Queries.State, ledger: Ledger, self: Address, parent: Address, consumer: Address,
                           amount: Uint256)
    requires self != parent && Queries.Capture(st, ledger, self, parent, parent, consumer, amount).Ok?
    ensures var (st', ledger') := Queries.Capture(st, ledger, self, parent, parent, consumer, amount).value;
            var balance := Get(st.balanceOf, consumer);
            var taken: int := if amount <= balance then amount else balance;
            && Shifted(st.balanceOf, st'.balanceOf, consumer, -taken)
            && Paid(ledger, ledger', self, parent, taken)
            && st'.captureOverflow == st.captureOverflow + (amount - taken)
  {
  }

  /** A capture from a stream takes the amount, or all there is, off that stream and pays it to the node manager. It
      charges every staker of the stream by its turns, or takes all from the listed ones. */
  lemma CaptureStreamEffect(st: Stores.State, ledger: Ledger, self: Address, parent: Address, stream: Bytes,
                            amount: Uint256, st': Stores.State, ledger': Ledger, x: Address)
    requires self != parent && Stores.Balanced(st) && Stores.Backed(st)
    requires Stores.Capture(st, ledger, self, parent, parent, stream, amount) == Ok((st', ledger'))
    ensures var stored, held := Get(st.stores, stream), Get(st.storeBalanceOf, (x, stream));
            var taken: int := if amount <= stored then amount else stored;
            && stored > 0
            && Shifted(st.stores, st'.stores, stream, -taken)
            && Paid(ledger, ledger', self, parent, taken)
            && Get(st'.storeBalanceOf, (x, stream))
               == if amount <= stored
                  then Fees.HeldAfter(held, stored, amount, Fees.Times(Stores.Stakeholders(st, stream), x))
                  else if x in Stores.Stakeholders(st, stream) then 0 else held
  {
    var charged := Stores.CaptureStake(st, stream, amount).value;
    Stores.CaptureStakeKeeps(st, stream, amount);
    PaidIff(ledger, self, parent, Stores.Captured(st, stream, amount));
    if amount <= Get(st.stores, stream) {
      Fees.CaptureCharges(st, stream, amount, charged, x);
    } else {
      Fees.CaptureClears(st, stream, amount, charged, x);
    }
  }

  // ----- the rest

  /** The owner sets the slot length, in milliseconds scaled by ten billion. */
  lemma SetBufferTx(w: World, env: Env, call: Call)
    requires call.tx.SetReportTimeBuffer?
    ensures Step(w, env, call).Ok? <==>
              call.sender == env.contracts.owner && call.tx.buffer * 10_000_000_000 <= UINT256_MAX
    ensures Step(w, env, call).Ok? ==>
              Step(w, env, call) == Ok(w.(reports := w.reports.(reportTimeBuffer := call.tx.buffer * 10_000_000_000)))
  {
  }

  lemma TransferTx(w: World, env: Env, call: Call)
    requires call.tx.TransferTokens? && call.tx.to != call.sender
    ensures Step(w, env, call).Ok? <==> CanPay(w.ledger, call.sender, call.tx.to, call.tx.amount)
    ensures Step(w, env, call).Ok? ==>
              && Step(w, env, call).value == w.(ledger := Step(w, env, call).value.ledger)
              && Paid(w.ledger, Step(w, env, call).value.ledger, call.sender, call.tx.to, call.tx.amount)
  {
    PaidIff(w.ledger, call.sender, call.tx.to, call.tx.amount);
  }

  /** Reports are submitted with the node manager's current list and the sender's current stake, and change nothing
      outside the report manager. */
  lemma SubmitTx(w: World, env: Env, call: Call, members: seq<Address>)
    requires call.tx.SubmitReport? && NodeAddresses(w.node.list) == Ok(members)
    ensures var staked := w.node.stakeRequiredAmount > 0
                          && At(w.node.list.nodes, call.sender).stake >= w.node.stakeRequiredAmount;
            var r := ReportManager.Submit(w.reports, Ok(members), staked, call.block, call.sender, call.tx.arguments,
                                          env.recover);
            && (Step(w, env, call).Ok? <==> r.Ok?)
            && (r.Ok? ==> Step(w, env, call) == Ok(w.(reports := r.value)))
  {
  }

  /** Processing marks one report and leaves everything else about reports alone. */
  lemma MarkedOnly(st: ReportManager.State, id: Bytes, other: Bytes)
    ensures var st' := ReportManager.MarkProcessed(st, id);
            && ReportManager.ReportAt(st', id) == ReportManager.ReportAt(st, id).(processed := true)
            && (other != id ==> ReportManager.ReportAt(st', other) == ReportManager.ReportAt(st, other))
            && st' == st.(reports := st'.reports)
  {
  }
}
