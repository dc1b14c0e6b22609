/** The deployed contracts on a chain that executes transactions one after the other and undoes the writes
    of those that revert. The contracts' own code thereby runs exactly as `Protocol.Run` says. */
module Chain {
  import opened Contracts
  import opened Evm
  import opened Protocol

  import NodeManager
  import Schedule
  import Settlement
  import Token

  class Deployment {
    const token: StakeToken
    const node: LogStoreNodeManager
    const stores: LogStoreManager
    const queries: LogStoreQueryManager
    const reports: LogStoreReportManager
    const env: Env

    ghost predicate Wired() {
      && node.token == token && node.Wired(env.contracts, stores, queries)
      && reports.nodeManager == node && reports.recover == env.recover
    }

    function World(): Settlement.World
      reads token, node, stores, queries, reports
    {
      Settlement.World(token.balances, node.Storage(), stores.Storage(), queries.Storage(), reports.Storage())
    }

    /** The contracts as they are deployed: the slot length and, for tests, the time are given in milliseconds and
        seconds and stored scaled. */
    constructor (env: Env, ledger: Token.Ledger, requiresWhitelist: bool, stakeRequiredAmount: Uint256,
                 reportTimeBuffer: Uint256, testTimestamp: Uint256)
      requires Settlement.Separate(env.contracts) && stakeRequiredAmount > 0
      requires forall a: Address :: IsContract(env.contracts, a) ==> a !in ledger
      requires reportTimeBuffer * 10_000_000_000 <= UINT256_MAX
      requires testTimestamp * 1000 * 10_000_000_000 <= UINT256_MAX
      ensures Wired() && this.env == env
      ensures Initial(World(), env) && World().ledger == ledger
      ensures node.requiresWhitelist == requiresWhitelist && node.stakeRequiredAmount == stakeRequiredAmount
      ensures reports.reportTimeBuffer == reportTimeBuffer * 10_000_000_000
      ensures reports.testTimestamp == testTimestamp * 1000 * 10_000_000_000
    {
      this.env := env;
      var coin := new StakeToken(ledger);
      var c := env.contracts;
      var nodeManager := new LogStoreNodeManager(coin, c.nodeManager, requiresWhitelist, stakeRequiredAmount);
      token, node := coin, nodeManager;
      stores := new LogStoreManager(coin, c.storeManager, c.nodeManager);
      queries := new LogStoreQueryManager(coin, c.queryManager, c.nodeManager);
      reports := new LogStoreReportManager(nodeManager, env.recover, reportTimeBuffer * Schedule.MATH_PRECISION,
                                           testTimestamp * 1000 * Schedule.MATH_PRECISION);
    }

    // The node manager's own transactions, by what they are about.

    method ExecuteMembership(sender: Address, block: Block, action: Action) returns (r: Outcome<()>)
      requires Wired() && (IsMembership(action))
      modifies node
      ensures r.Ok? ==> NodeTx(old(node.Funds()), env, sender, block, action) == Ok(node.Funds())
      ensures r.Revert? ==> NodeTx(old(node.Funds()), env, sender, block, action) == Revert(r.reason)
    {
      if !action.UpsertOwnNode? && !action.RemoveOwnNode? {
        var _ :- OnlyOwner(env, sender);
      }
      match action
      case UpsertOwnNode(metadata) => r := node.UpsertOwn(block, sender, metadata);
      case UpsertNodeAdmin(a, metadata) => r := node.UpsertNode(block, a, metadata);
      case RemoveOwnNode => r := node.RemoveNode(sender);
      case RemoveNodeAdmin(a) => r := node.RemoveNode(a);
      case KickNode(a) =>
        node.whitelist := node.whitelist[a := NodeManager.Rejected];
        r := node.RemoveNode(a);
      case WhitelistApproveNode(a) =>
        node.whitelist := node.whitelist[a := NodeManager.Approved];
        r := Ok(());
      case WhitelistRejectNode(a) =>
        node.whitelist := node.whitelist[a := NodeManager.Rejected];
        r := Ok(());
      case SetRequiresWhitelist(required) =>
        node.requiresWhitelist := required;
        r := Ok(());
    }

    method ExecutePayment(sender: Address, block: Block, action: Action) returns (r: Outcome<()>)
      requires Wired() && (IsPayment(action))
      modifies node, token
      ensures r.Ok? ==> NodeTx(old(node.Funds()), env, sender, block, action) == Ok(node.Funds())
      ensures r.Revert? ==> NodeTx(old(node.Funds()), env, sender, block, action) == Revert(r.reason)
    {
      match action
      case StakeTokens(amount) => r := node.Stake(sender, amount);
      case WithdrawTokens(amount) => r := node.Withdraw(sender, amount);
      case WithdrawTreasury(amount) =>
        var _ :- OnlyOwner(env, sender);
        r := node.TreasuryWithdraw(sender, amount);
    }

    method ExecuteDelegation(sender: Address, block: Block, action: Action) returns (r: Outcome<()>)
      requires Wired() && (action.DelegateStake? || action.UndelegateStake?)
      modifies node
      ensures r.Ok? ==> NodeTx(old(node.Funds()), env, sender, block, action) == Ok(node.Funds())
      ensures r.Revert? ==> NodeTx(old(node.Funds()), env, sender, block, action) == Revert(r.reason)
    {
      match action
      case DelegateStake(amount, a) => r := node.Delegate(sender, amount, a);
      case UndelegateStake(amount, a) => r := node.Undelegate(sender, amount, a);
    }

    method ExecuteStakeDelegate(sender: Address, block: Block, action: Action) returns (r: Outcome<()>)
      requires Wired() && (action.StakeDelegate? || action.UndelegateWithdrawal?)
      modifies node, token
      ensures r.Ok? ==> NodeTx(old(node.Funds()), env, sender, block, action) == Ok(node.Funds())
      ensures r.Revert? ==> NodeTx(old(node.Funds()), env, sender, block, action) == Revert(r.reason)
    {
      match action
      case StakeDelegate(amount, a) => r := node.StakeAndDelegate(sender, amount, a);
      case UndelegateWithdrawal(amount, a) => r := node.UndelegateWithdraw(sender, amount, a);
    }

    method ExecuteJoinLeave(sender: Address, block: Block, action: Action) returns (r: Outcome<()>)
      requires Wired() && (action.JoinNetwork? || action.LeaveNetwork?)
      modifies node, token
      ensures r.Ok? ==> NodeTx(old(node.Funds()), env, sender, block, action) == Ok(node.Funds())
      ensures r.Revert? ==> NodeTx(old(node.Funds()), env, sender, block, action) == Revert(r.reason)
    {
      match action
      case JoinNetwork(amount, metadata) => r := node.Join(block, sender, amount, metadata);
      case LeaveNetwork => r := node.Leave(sender);
    }

    method ExecuteComposite(sender: Address, block: Block, action: Action) returns (r: Outcome<()>)
      requires Wired() && (IsComposite(action))
      modifies node, token
      ensures r.Ok? ==> NodeTx(old(node.Funds()), env, sender, block, action) == Ok(node.Funds())
      ensures r.Revert? ==> NodeTx(old(node.Funds()), env, sender, block, action) == Revert(r.reason)
    {
      if action.JoinNetwork? || action.LeaveNetwork? {
        r := ExecuteJoinLeave(sender, block, action);
      } else {
        r := ExecuteStakeDelegate(sender, block, action);
      }
    }

    predicate IsPayment(action: Action) {
      action.StakeTokens? || action.WithdrawTokens? || action.WithdrawTreasury?
    }

    predicate IsComposite(action: Action) {
      action.StakeDelegate? || action.UndelegateWithdrawal? || action.JoinNetwork? || action.LeaveNetwork?
    }

    method ExecuteNodeTx(call: Call) returns (r: Outcome<()>)
      requires Wired() && call.tx.OnNode?
      modifies node, token
      ensures r.Ok? ==> Step(old(World()), env, call) == Ok(World())
      ensures r.Revert? ==> Step(old(World()), env, call) == Revert(r.reason)
    {
      var action := call.tx.action;
      if IsPayment(action) {
        r := ExecutePayment(call.sender, call.block, action);
      } else if IsComposite(action) {
        r := ExecuteComposite(call.sender, call.block, action);
      } else if IsMembership(action) {
        r := ExecuteMembership(call.sender, call.block, action);
      } else {
        r := ExecuteDelegation(call.sender, call.block, action);
      }
    }

    method ExecuteSubmitReport(call: Call) returns (r: Outcome<()>)
      requires Wired() && call.tx.SubmitReport?
      modifies reports
      ensures r.Ok? ==> Step(old(World()), env, call) == Ok(World())
      ensures r.Revert? ==> Step(old(World()), env, call) == Revert(r.reason)
    {
      r := reports.SubmitReport(call.block, call.sender, call.tx.arguments);
    }

    method ExecuteProcessReport(call: Call) returns (r: Outcome<()>)
      requires Wired() && call.tx.ProcessReportOf?
      modifies token, node, stores, queries, reports
      ensures r.Ok? ==> Step(old(World()), env, call) == Ok(World())
      ensures r.Revert? ==> Step(old(World()), env, call) == Revert(r.reason)
    {
      r := node.ProcessReport(call.sender, call.tx.id, env.contracts, stores, queries, reports);
    }

    method ExecuteSetBuffer(call: Call) returns (r: Outcome<()>)
      requires Wired() && call.tx.SetReportTimeBuffer?
      modifies reports
      ensures r.Ok? ==> Step(old(World()), env, call) == Ok(World())
      ensures r.Revert? ==> Step(old(World()), env, call) == Revert(r.reason)
    {
      var _ :- OnlyOwner(env, call.sender);
      var precise :- Mul(call.tx.buffer, Schedule.MATH_PRECISION);
      reports.reportTimeBuffer := precise;
      r := Ok(());
    }

    method ExecuteStakeStore(call: Call) returns (r: Outcome<()>)
      requires Wired() && call.tx.StakeStore?
      modifies token, stores
      ensures r.Ok? ==> Step(old(World()), env, call) == Ok(World())
      ensures r.Revert? ==> Step(old(World()), env, call) == Revert(r.reason)
    {
      r := stores.Stake(call.sender, env.streamExists(call.tx.stream), call.tx.stream, call.tx.amount);
    }

    method ExecuteStakeQuery(call: Call) returns (r: Outcome<()>)
      requires Wired() && call.tx.StakeQuery?
      modifies token, queries
      ensures r.Ok? ==> Step(old(World()), env, call) == Ok(World())
      ensures r.Revert? ==> Step(old(World()), env, call) == Revert(r.reason)
    {
      r := queries.Stake(call.sender, call.tx.amount);
    }

    method ExecuteTransfer(call: Call) returns (r: Outcome<()>)
      requires Wired() && call.tx.TransferTokens?
      modifies token
      ensures r.Ok? ==> Step(old(World()), env, call) == Ok(World())
      ensures r.Revert? ==> Step(old(World()), env, call) == Revert(r.reason)
    {
      r := token.Transfer(call.sender, call.tx.to, call.tx.amount);
    }

    method Dispatch(call: Call) returns (r: Outcome<()>)
      requires Wired()
      modifies token, node, stores, queries, reports
      ensures r.Ok? ==> Step(old(World()), env, call) == Ok(World())
      ensures r.Revert? ==> Step(old(World()), env, call) == Revert(r.reason)
    {
      match call.tx
      case SubmitReport(_) => r := ExecuteSubmitReport(call);
      case ProcessReportOf(_) => r := ExecuteProcessReport(call);
      case SetReportTimeBuffer(_) => r := ExecuteSetBuffer(call);
      case StakeStore(_, _) => r := ExecuteStakeStore(call);
      case StakeQuery(_) => r := ExecuteStakeQuery(call);
      case TransferTokens(_, _) => r := ExecuteTransfer(call);
      case OnNode(_) => r := ExecuteNodeTx(call);
    }

    /** One transaction: dispatched, and undone if it reverts. */
    method Execute(call: Call) returns (r: Outcome<()>)
      requires Wired()
      modifies token, node, stores, queries, reports
      ensures World() == Apply(old(World()), env, call)
      ensures r.Ok? <==> Step(old(World()), env, call).Ok?
    {
      var before := World();
      r := Dispatch(call);
      if r.Revert? {
        token.balances := before.ledger;
        node.Restore(before.node);
        stores.Restore(before.stores);
        queries.Restore(before.queries);
        reports.Restore(before.reports);
      }
    }

    method ExecuteAll(calls: seq<Call>)
      requires Wired()
      modifies token, node, stores, queries, reports
      ensures World() == Run(old(World()), env, calls)
    {
      for i := 0 to |calls|
        invariant Run(World(), env, calls[i..]) == Run(old(World()), env, calls)
      {
        assert calls[i..][0] == calls[i] && calls[i..][1..] == calls[i + 1..];
        var _ := Execute(calls[i]);
      }
    }
  }
}
