/** What accounts can get out of the node manager again, after any run. */
module Payouts {
  import opened Evm
  import opened Mappings
  import opened NodeManager
  import opened Positions
  import opened Protocol
  import opened Registry
  import opened Runs
  import opened Settlement
  import opened Token

  import Effects

  // ----- withdrawing

  /** The captures' overflows, which the node manager has on its books but not in its purse. */
  function Shortfall(w: World): nat {
    w.stores.captureOverflow + w.queries.captureOverflow
  }

  /** After any run an account can withdraw an amount exactly if it is within its balance, the recorded supply less
      all overflows covers it, and its own tokens do not overflow. */
  lemma WithdrawIff(w: World, env: Env, calls: seq<Call>, a: Address, amount: Uint256)
    requires Initial(w, env) && AllAdmissible(env, calls) && a != env.contracts.nodeManager
    ensures var w' := Run(w, env, calls);
            Withdraw(Funds(w'.node, w'.ledger), env.contracts.nodeManager, a, amount).Ok?
            <==> && amount <= Get(w'.node.balanceOf, a)
                 && amount + Shortfall(w') <= w'.node.totalSupply
                 && Get(w'.ledger, a) + amount <= UINT256_MAX
  {
    SupplyGapIsOverflow(w, env, calls);
  }

  lemma {:induction false} NoOverflowYet(w: World, env: Env, calls: seq<Call>)
    requires NoProcessing(w, env, calls)
    ensures Shortfall(Run(w, env, calls)) == Shortfall(w)
    decreases |calls|
  {
    if calls != [] {
      if Step(w, env, calls[0]).Ok? {
        StepNoOverflow(w, env, calls[0], Apply(w, env, calls[0]));
      }
      NoOverflowYet(Apply(w, env, calls[0]), env, calls[1..]);
    }
  }

  lemma StepNoOverflow(w: World, env: Env, call: Call, w': World)
    requires Step(w, env, call) == Ok(w') && !call.tx.ProcessReportOf?
    ensures Shortfall(w') == Shortfall(w)
  {
    match call.tx
    case OnNode(_) => assert w'.stores == w.stores && w'.queries == w.queries;
    case _ =>
  }

  /** As long as no report was processed every balance is there to be withdrawn. */
  lemma BalancesRedeemable(w: World, env: Env, calls: seq<Call>, a: Address, amount: Uint256)
    requires Initial(w, env) && AllAdmissible(env, calls) && a != env.contracts.nodeManager
    requires NoProcessing(w, env, calls)
    ensures var w' := Run(w, env, calls);
            Withdraw(Funds(w'.node, w'.ledger), env.contracts.nodeManager, a, amount).Ok?
            <==> amount <= Get(w'.node.balanceOf, a) && Get(w'.ledger, a) + amount <= UINT256_MAX
  {
    WithdrawIff(w, env, calls, a, amount);
    NoOverflowYet(w, env, calls);
    LedgerAddsUp(w, env, calls, a);
    SumCovers(Run(w, env, calls).node.balanceOf, a);
  }

  /** And on such runs whoever delegated gets it back out, as far as the node's recorded stake goes (which is all the
      way if the node was never removed): the delegate itself is paid, and nobody else. */
  lemma DelegationsRedeemable(w: World, env: Env, calls: seq<Call>, d: Address, n: Address, amount: Uint256)
    requires Initial(w, env) && AllAdmissible(env, calls) && d != env.contracts.nodeManager
    requires NoProcessing(w, env, calls)
    ensures var w', self := Run(w, env, calls), env.contracts.nodeManager;
            var f := Funds(w'.node, w'.ledger);
            && (UndelegateWithdraw(f, self, d, amount, n).Ok?
                <==> && 0 < amount <= Get(w'.node.delegatesOf, (d, n)) && amount <= StakeOf(w'.node, n)
                     && At(w'.node.list.nodes, n).lastSeen > 0 && Get(w'.ledger, d) + amount <= UINT256_MAX)
            && (UndelegateWithdraw(f, self, d, amount, n).Ok? ==>
                  Effects.Paid(w'.ledger, UndelegateWithdraw(f, self, d, amount, n).value.ledger, self, d, amount))
  {
    var w', self := Run(w, env, calls), env.contracts.nodeManager;
    Effects.UndelegateWithdrawEffect(Funds(w'.node, w'.ledger), self, d, amount, n);
    SupplyGapIsOverflow(w, env, calls);
    NoOverflowYet(w, env, calls);
    LedgerAddsUp(w, env, calls, n);
    SumCovers(w'.node.delegatesOf, (d, n));
    SumCovers(w'.node.balanceOf, d);
  }

  // ----- four transactions that lock a delegation up

  function DelegateRemoveReturn(env: Env, block: Block, d: Address, n: Address): seq<Call> {
    [ByOwner(env, block, UpsertNodeAdmin(n, [])), Call(d, block, OnNode(StakeDelegate(1, n))),
     ByOwner(env, block, RemoveNodeAdmin(n)), ByOwner(env, block, UpsertNodeAdmin(n, []))]
  }

  /** Register `n`, let `d` stake one token and delegate it to `n`, remove `n`, register `n`: the delegation is still
      recorded, the node is registered, and `d` can undelegate nothing. */
  lemma DelegationLocked(w: World, env: Env, block: Block, d: Address, n: Address, amount: Uint256)
    requires Initial(w, env) && block.number > 0 && block.timestamp > 0 && n != NO_ADDRESS
    requires d != env.contracts.nodeManager && Get(w.ledger, d) > 0
    ensures var st := Run(w, env, DelegateRemoveReturn(env, block, d, n)).node;
            && Get(st.delegatesOf, (d, n)) == 1 && At(st.list.nodes, n).lastSeen > 0
            && Undelegate(st, d, amount, n).Revert?
  {
    var calls := DelegateRemoveReturn(env, block, d, n);
    var w1 := Apply(w, env, calls[0]);
    var w2 := Apply(w1, env, calls[1]);
    var w3 := Apply(w2, env, calls[2]);
    var w4 := Apply(w3, env, calls[3]);
    FourCalls(w, env, calls);
    FirstRegistered(w, env, block, n, w1);
    OneDelegated(w1, env, block, d, n, w2);
    Removal(w2, env, block, n, w3);
    Return(w3, env, block, n, w4);
    StuckAfterReturn(w2.node, block, n, [], w3.node, w4.node, d, amount);
  }

  lemma FourCalls(w: World, env: Env, calls: seq<Call>)
    requires |calls| == 4
    ensures Run(w, env, calls)
         == Apply(Apply(Apply(Apply(w, env, calls[0]), env, calls[1]), env, calls[2]), env, calls[3])
  {
    var w1 := Apply(w, env, calls[0]);
    var w2 := Apply(w1, env, calls[1]);
    var w3 := Apply(w2, env, calls[2]);
    assert calls[1..][1..] == calls[2..] && calls[2..][1..] == calls[3..] && calls[3..][1..] == [];
    assert Run(w2, env, calls[2..]) == Run(w3, env, calls[3..]) == Apply(w3, env, calls[3]);
    assert Run(w, env, calls) == Run(w1, env, calls[1..]) == Run(w2, env, calls[2..]);
  }

  lemma FirstRegistered(w: World, env: Env, block: Block, n: Address, w': World)
    requires Initial(w, env) && block.timestamp > 0
    requires w' == Apply(w, env, ByOwner(env, block, UpsertNodeAdmin(n, [])))
    ensures w'.ledger == w.ledger && w'.node == w.node.(list := w'.node.list)
    ensures At(w'.node.list.nodes, n).lastSeen > 0 && At(w'.node.list.nodes, n).stake == 0
    ensures w'.node.list.totalNodes == 1
  {
  }

  lemma OneDelegated(w: World, env: Env, block: Block, d: Address, n: Address, w': World)
    requires d != env.contracts.nodeManager
    requires Get(w.ledger, d) > 0 && Get(w.ledger, env.contracts.nodeManager) == 0
    requires w.node.balanceOf == map[] && w.node.delegatesOf == map[] && w.node.totalSupply == 0
    requires At(w.node.list.nodes, n).lastSeen > 0 && At(w.node.list.nodes, n).stake == 0
    requires w' == Apply(w, env, Call(d, block, OnNode(StakeDelegate(1, n))))
    ensures Get(w'.node.delegatesOf, (d, n)) == 1
    ensures At(w'.node.list.nodes, n).lastSeen > 0 && w'.node.list.totalNodes == w.node.list.totalNodes
  {
    var f := Funds(w.node, w.ledger);
    assert Stake(f, env.contracts.nodeManager, d, 1).Ok?;
  }

  lemma Removal(w: World, env: Env, block: Block, n: Address, w': World)
    requires At(w.node.list.nodes, n).lastSeen > 0 && w.node.list.totalNodes > 0
    requires w' == Apply(w, env, ByOwner(env, block, RemoveNodeAdmin(n)))
    ensures RemoveNode(w.node, n) == Ok(w'.node)
    ensures w'.node.list.totalNodes == w.node.list.totalNodes - 1
  {
  }

  lemma Return(w: World, env: Env, block: Block, n: Address, w': World)
    requires w.node.list.totalNodes == 0 && block.timestamp > 0
    requires w' == Apply(w, env, ByOwner(env, block, UpsertNodeAdmin(n, [])))
    ensures UpsertNode(w.node, block, n, []) == Ok(w'.node) && At(w'.node.list.nodes, n).lastSeen > 0
  {
  }
}
