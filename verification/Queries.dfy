/** LogStoreQueryManager: consumers stake tokens; the node manager captures query fees from them. */
module Queries {
  import opened Evm
  import opened Mappings
  import opened Token

  datatype State = State(
    totalSupply: Uint256,
    balanceOf: map<Address, Uint256>,
    captureOverflow: nat,  // the overflow arguments of all CaptureOverflow events so far, added up
    supplyOverflow: nat    // likewise for SupplyOverflow
  )

  const EMPTY := State(0, map[], 0, 0)

  function Stake(st: State, ledger: Ledger, self: Address, user: Address, amount: Uint256): Outcome<(State, Ledger)> {
    var _ :- Require(amount > 0, "error_insufficientStake");
    var balance :- Add(Get(st.balanceOf, user), amount);
    var supply :- Add(st.totalSupply, amount);
    var ledger' :- Transfer(ledger, user, self, amount);
    Ok((st.(balanceOf := st.balanceOf[user := balance], totalSupply := supply), ledger'))
  }

  /** The tokens that a capture of `amount` really moves. */
  function Captured(st: State, consumer: Address, amount: Uint256): Uint256 {
    if Get(st.balanceOf, consumer) < amount then Get(st.balanceOf, consumer) else amount
  }

  function CaptureStake(st: State, consumer: Address, amount: Uint256): State {
    var captured := Captured(st, consumer, amount);
    st.(balanceOf := st.balanceOf[consumer := Get(st.balanceOf, consumer) - captured],
        captureOverflow := st.captureOverflow + (amount - captured))
  }

  function CaptureSupply(st: State, amount: Uint256): State {
    if st.totalSupply < amount then
      st.(supplyOverflow := st.supplyOverflow + (amount - st.totalSupply), totalSupply := 0)
    else st.(totalSupply := st.totalSupply - amount)
  }

  function Capture(st: State, ledger: Ledger, self: Address, parent: Address, caller: Address,
                   consumer: Address, amount: Uint256): Outcome<(State, Ledger)> {
    var _ :- Require(caller == parent, "error_onlyParent");
    var _ :- Require(Get(st.balanceOf, consumer) > 0, "error_invalidConsumerAddress");
    var captured := Captured(st, consumer, amount);
    var _ :- Require(captured <= Get(ledger, self), "error_insufficientStake");
    var ledger' :- Transfer(ledger, self, caller, captured);
    Ok((CaptureSupply(CaptureStake(st, consumer, amount), amount), ledger'))
  }

  /** What holds between transactions, `held` being the tokens the contract owns. */
  ghost predicate Valid(st: State, held: nat) {
    && held == Sum(st.balanceOf)
    && st.totalSupply <= Sum(st.balanceOf)
    && st.totalSupply + st.captureOverflow == Sum(st.balanceOf) + st.supplyOverflow
    && (st.captureOverflow == 0 ==> st.totalSupply == Sum(st.balanceOf) && st.supplyOverflow == 0)
  }

  lemma EmptyValid()
    ensures Valid(EMPTY, 0)
  {
    SumEmpty(EMPTY.balanceOf);
  }

  lemma StakeValid(st: State, ledger: Ledger, self: Address, user: Address, amount: Uint256)
    requires Valid(st, Get(ledger, self)) && user != self
    requires Stake(st, ledger, self, user, amount).Ok?
    ensures var (st', ledger') := Stake(st, ledger, self, user, amount).value;
            Valid(st', Get(ledger', self))
  {
    SumPut(st.balanceOf, user, Get(st.balanceOf, user) + amount);
  }

  /** A capture by the node manager succeeds whenever the consumer has stake and the manager can be
      credited; "error_insufficientStake" is unreachable. */
  lemma CaptureSucceeds(st: State, ledger: Ledger, self: Address, parent: Address, consumer: Address, amount: Uint256)
    requires Valid(st, Get(ledger, self)) && self != parent
    ensures Get(st.balanceOf, consumer) > 0 && Get(ledger, parent) + Captured(st, consumer, amount) <= UINT256_MAX
       <==> Capture(st, ledger, self, parent, parent, consumer, amount).Ok?
    ensures Capture(st, ledger, self, parent, parent, consumer, amount) != Revert("error_insufficientStake")
  {
    SumCovers(st.balanceOf, consumer);
  }

  /** It keeps the invariant and moves exactly `Captured`, recording the rest as overflow. */
  lemma CaptureValid(st: State, ledger: Ledger, self: Address, parent: Address, consumer: Address, amount: Uint256)
    requires Valid(st, Get(ledger, self)) && self != parent
    requires Capture(st, ledger, self, parent, parent, consumer, amount).Ok?
    ensures var (st', ledger') := Capture(st, ledger, self, parent, parent, consumer, amount).value;
            && Valid(st', Get(ledger', self))
            && Transfer(ledger, self, parent, Captured(st, consumer, amount)) == Ok(ledger')
            && st'.captureOverflow == st.captureOverflow + (amount - Captured(st, consumer, amount))
            && st'.totalSupply == (if amount > st.totalSupply then 0 else st.totalSupply - amount)
            && st'.supplyOverflow
                 == st.supplyOverflow + (if amount > st.totalSupply then amount - st.totalSupply else 0)
  {
    SumCovers(st.balanceOf, consumer);
    SumPut(st.balanceOf, consumer, Get(st.balanceOf, consumer) - Captured(st, consumer, amount));
  }
}
