/** The staking token, reduced to its EIP-20 balance ledger. */
module Token {
  import opened Evm
  import opened Mappings

  type Ledger = map<Address, Uint256>

  const EXCEEDS_BALANCE := "ERC20: transfer amount exceeds balance"

  /** EIP-20 `transfer` and, for an approved spender, `transferFrom`. */
  function Transfer(ledger: Ledger, from: Address, to: Address, amount: Uint256): (r: Outcome<Ledger>)
    ensures r.Ok? && from != to ==>
              && amount <= Get(ledger, from)
              && Get(r.value, from) == Get(ledger, from) - amount
              && Get(r.value, to) == Get(ledger, to) + amount
    ensures r.Ok? ==> forall x :: x != from && x != to ==> Get(r.value, x) == Get(ledger, x)
    ensures from != to ==>
              (r.Ok? <==> amount <= Get(ledger, from) && Get(ledger, to) + amount <= UINT256_MAX)
  {
    var _ :- Require(amount <= Get(ledger, from), EXCEEDS_BALANCE);
    var debited := ledger[from := Get(ledger, from) - amount];
    var credit :- Add(Get(debited, to), amount);
    Ok(debited[to := credit])
  }

  lemma TransferConservesSupply(ledger: Ledger, from: Address, to: Address, amount: Uint256)
    requires Transfer(ledger, from, to, amount).Ok?
    ensures Sum(Transfer(ledger, from, to, amount).value) == Sum(ledger)
  {
    var debited := ledger[from := Get(ledger, from) - amount];
    SumPut(ledger, from, Get(ledger, from) - amount);
    SumPut(debited, to, Get(debited, to) + amount);
  }
}
