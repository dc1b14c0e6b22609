/** LogStoreManager: users stake tokens on a stream; the node manager captures fees from that stake. */
module Stores {
  import opened Arithmetic
  import opened Evm
  import opened Mappings
  import opened Token

  datatype State = State(
    totalSupply: Uint256,
    stores: map<Bytes, Uint256>,
    storeStakeholders: map<Bytes, seq<Address>>,
    balanceOf: map<Address, Uint256>,
    storeBalanceOf: map<(Address, Bytes), Uint256>,
    captureOverflow: nat,  // the overflow arguments of all CaptureOverflow events so far, added up
    supplyOverflow: nat    // likewise for SupplyOverflow
  )

  const EMPTY := State(0, map[], map[], map[], map[], 0, 0)

  function Stakeholders(st: State, stream: Bytes): seq<Address> {
    if stream in st.storeStakeholders then st.storeStakeholders[stream] else []
  }

  // ----- stake

  predicate CanCredit(st: State, user: Address, stream: Bytes, amount: Uint256) {
    && Get(st.stores, stream) + amount <= UINT256_MAX
    && Get(st.balanceOf, user) + amount <= UINT256_MAX
    && Get(st.storeBalanceOf, (user, stream)) + amount <= UINT256_MAX
    && st.totalSupply + amount <= UINT256_MAX
  }

  /** The user goes on the list of stakeholders unless it has stake in the stream already. */
  function Enlisted(st: State, user: Address, stream: Bytes): map<Bytes, seq<Address>> {
    if Get(st.storeBalanceOf, (user, stream)) == 0
    then st.storeStakeholders[stream := Stakeholders(st, stream) + [user]]
    else st.storeStakeholders
  }

  function Credited(st: State, user: Address, stream: Bytes, amount: Uint256): State
    requires CanCredit(st, user, stream, amount)
  {
    st.(stores := st.stores[stream := Get(st.stores, stream) + amount],
        balanceOf := st.balanceOf[user := Get(st.balanceOf, user) + amount],
        storeStakeholders := Enlisted(st, user, stream),
        storeBalanceOf := st.storeBalanceOf[(user, stream) := Get(st.storeBalanceOf, (user, stream)) + amount],
        totalSupply := st.totalSupply + amount)
  }

  function Credit(st: State, user: Address, stream: Bytes, amount: Uint256): Outcome<State> {
    if CanCredit(st, user, stream, amount) then Ok(Credited(st, user, stream, amount)) else Revert(PANIC_ARITHMETIC)
  }

  function Stake(st: State, ledger: Ledger, self: Address, user: Address,
                 streamExists: bool, stream: Bytes, amount: Uint256): Outcome<(State, Ledger)> {
    var _ :- Require(streamExists, "error_invalidStream");
    var _ :- Require(amount > 0, "error_insufficientStake");
    var ledger' :- Transfer(ledger, user, self, amount);
    var st' :- Credit(st, user, stream, amount);
    Ok((st', ledger'))
  }

  // ----- capture

  function SubClamped(a: Uint256, b: Uint256): Uint256 {
    if a < b then 0 else a - b
  }

  function Reset(st: State, user: Address, stream: Bytes): State {
    st.(balanceOf := st.balanceOf[user := SubClamped(Get(st.balanceOf, user), Get(st.storeBalanceOf, (user, stream)))],
        storeBalanceOf := st.storeBalanceOf[(user, stream) := 0])
  }

  function ResetAll(st: State, list: seq<Address>, stream: Bytes): State
    decreases |list|
  {
    if list == [] then st else ResetAll(Reset(st, list[0], stream), list[1..], stream)
  }

  /** What lines 113-118 leave behind: one copy of `user` for every entry that is somebody else. */
  function Relisted(list: seq<Address>, user: Address): seq<Address> {
    if list == [] then [] else
    (if list[0] != user then [user] else []) + Relisted(list[1..], user)
  }

  /** The fee of one stakeholder: an integer quotient of the stake, times the captured amount. */
  function Deduction(st: State, user: Address, stream: Bytes, amount: Uint256): Outcome<Uint256> {
    var ownership :- Div(Get(st.storeBalanceOf, (user, stream)), Get(st.stores, stream));
    Mul(ownership, amount)
  }

  function Deduct(st: State, all: seq<Address>, user: Address, stream: Bytes, amount: Uint256): Outcome<State> {
    var deduction :- Deduction(st, user, stream, amount);
    var held := SubClamped(Get(st.storeBalanceOf, (user, stream)), deduction);
    Ok(st.(balanceOf := st.balanceOf[user := SubClamped(Get(st.balanceOf, user), deduction)],
           storeBalanceOf := st.storeBalanceOf[(user, stream) := held],
           storeStakeholders := if held == 0 then st.storeStakeholders[stream := Relisted(all, user)]
                                else st.storeStakeholders))
  }

  function DeductAll(st: State, all: seq<Address>, list: seq<Address>, stream: Bytes, amount: Uint256): Outcome<State>
    decreases |list|
  {
    if list == [] then Ok(st) else
    var st' :- Deduct(st, all, list[0], stream, amount);
    DeductAll(st', all, list[1..], stream, amount)
  }

  function CaptureStake(st: State, stream: Bytes, amount: Uint256): Outcome<State> {
    if Get(st.stores, stream) < amount then
      var reset := ResetAll(st, Stakeholders(st, stream), stream);
      Ok(reset.(storeStakeholders := reset.storeStakeholders[stream := []],
                stores := reset.stores[stream := 0],
                captureOverflow := st.captureOverflow + (amount - Get(st.stores, stream))))
    else
      var deducted :- DeductAll(st, Stakeholders(st, stream), Stakeholders(st, stream), stream, amount);
      var rest :- Sub(Get(deducted.stores, stream), amount);
      Ok(deducted.(stores := deducted.stores[stream := rest]))
  }

  function CaptureSupply(st: State, amount: Uint256): State {
    if st.totalSupply < amount then
      st.(supplyOverflow := st.supplyOverflow + (amount - st.totalSupply), totalSupply := 0)
    else st.(totalSupply := st.totalSupply - amount)
  }

  /** The tokens that a capture of `amount` really moves. */
  function Captured(st: State, stream: Bytes, amount: Uint256): Uint256 {
    if Get(st.stores, stream) < amount then Get(st.stores, stream) else amount
  }

  function Capture(st: State, ledger: Ledger, self: Address, parent: Address, caller: Address,
                   stream: Bytes, amount: Uint256): Outcome<(State, Ledger)> {
    var _ :- Require(caller == parent, "error_onlyParent");
    var _ :- Require(Get(st.stores, stream) > 0, "error_invalidStreamId");
    var charged :- CaptureStake(st, stream, amount);
    var st' := CaptureSupply(charged, amount);
    var _ :- Require(Captured(st, stream, amount) <= Get(ledger, self), "error_insufficientStake");
    var ledger' :- Transfer(ledger, self, caller, Captured(st, stream, amount));
    Ok((st', ledger'))
  }

  // ----- invariant

  /** Every balance is the sum of the holder's stakes in the single streams. */
  ghost predicate Balanced(st: State) {
    AreRowSums(st.balanceOf, st.storeBalanceOf)
  }

  /** No stream claims more than its stakers still hold in it. */
  ghost predicate Backed(st: State) {
    AreBacked(st.stores, st.storeBalanceOf)
  }

  /** What holds between transactions, `held` being the tokens the contract owns. */
  ghost predicate Valid(st: State, held: nat) {
    && Balanced(st)
    && Backed(st)
    && held == Sum(st.stores)
    && st.totalSupply <= Sum(st.stores)
    && st.totalSupply + st.captureOverflow == Sum(st.stores) + st.supplyOverflow
    && (st.captureOverflow == 0 ==> st.totalSupply == Sum(st.stores) && st.supplyOverflow == 0)
  }

  lemma EmptyValid()
    ensures Valid(EMPTY, 0)
  {
    SumEmpty(EMPTY.stores);
    forall x: Address ensures RowSum(EMPTY.storeBalanceOf, x) == 0 {
      SumEmpty(Row(EMPTY.storeBalanceOf, x));
    }
  }

  lemma CreditBalanced(st: State, user: Address, stream: Bytes, amount: Uint256)
    requires CanCredit(st, user, stream, amount) && Balanced(st)
    ensures Balanced(Credited(st, user, stream, amount))
  {
    var k := (user, stream);
    RowSumsPut(st.balanceOf, st.storeBalanceOf, k, Get(st.balanceOf, user) + amount,
               Get(st.storeBalanceOf, k) + amount);
  }

  lemma CreditBacked(st: State, user: Address, stream: Bytes, amount: Uint256)
    requires CanCredit(st, user, stream, amount) && Backed(st)
    ensures Backed(Credited(st, user, stream, amount))
  {
    var k := (user, stream);
    BackedPut(st.stores, st.storeBalanceOf, k, Get(st.stores, stream) + amount, Get(st.storeBalanceOf, k) + amount);
  }

  lemma StakeValid(st: State, ledger: Ledger, self: Address, user: Address, streamExists: bool, stream: Bytes,
                   amount: Uint256)
    requires Valid(st, Get(ledger, self)) && user != self
    requires Stake(st, ledger, self, user, streamExists, stream, amount).Ok?
    ensures var (st', ledger') := Stake(st, ledger, self, user, streamExists, stream, amount).value;
            Valid(st', Get(ledger', self))
  {
    CreditBalanced(st, user, stream, amount);
    CreditBacked(st, user, stream, amount);
    SumPut(st.stores, stream, Get(st.stores, stream) + amount);
  }

  /** Under the invariant the three "balances are off" branches of `capture` are dead: whoever the
      stakeholder list names, and however often, each subtraction is covered. */
  ghost predicate ResetsCovered(st: State, list: seq<Address>, stream: Bytes)
    decreases |list|
  {
    list != [] ==>
      && Get(st.balanceOf, list[0]) >= Get(st.storeBalanceOf, (list[0], stream))
      && ResetsCovered(Reset(st, list[0], stream), list[1..], stream)
  }

  ghost predicate DeductionsCovered(st: State, all: seq<Address>, list: seq<Address>, stream: Bytes, amount: Uint256)
    decreases |list|
  {
    list != [] ==>
      && Deduction(st, list[0], stream, amount).Ok?
      && Get(st.balanceOf, list[0]) >= Deduction(st, list[0], stream, amount).value
      && Get(st.storeBalanceOf, (list[0], stream)) >= Deduction(st, list[0], stream, amount).value
      && DeductionsCovered(Deduct(st, all, list[0], stream, amount).value, all, list[1..], stream, amount)
  }

  lemma ResetKeeps(st: State, user: Address, stream: Bytes)
    requires Balanced(st)
    ensures Get(st.balanceOf, user) >= Get(st.storeBalanceOf, (user, stream))
    ensures Balanced(Reset(st, user, stream))
    ensures forall s: Bytes :: s != stream ==>
              ColumnSum(Reset(st, user, stream).storeBalanceOf, s) == ColumnSum(st.storeBalanceOf, s)
  {
    var st' := Reset(st, user, stream);
    RowCovers(st.storeBalanceOf, (user, stream));
    RowSumsPut(st.balanceOf, st.storeBalanceOf, (user, stream),
               Get(st.balanceOf, user) - Get(st.storeBalanceOf, (user, stream)), 0);
    forall s: Bytes | s != stream
      ensures ColumnSum(st'.storeBalanceOf, s) == ColumnSum(st.storeBalanceOf, s)
    {
      ColumnSumPut(st.storeBalanceOf, (user, stream), 0, s);
    }
  }

  lemma {:induction false} ResetAllKeeps(st: State, list: seq<Address>, stream: Bytes)
    requires Balanced(st)
    ensures ResetsCovered(st, list, stream)
    ensures var st' := ResetAll(st, list, stream);
            && Balanced(st')
            && st' == st.(balanceOf := st'.balanceOf, storeBalanceOf := st'.storeBalanceOf)
            && forall s: Bytes :: s != stream ==> ColumnSum(st'.storeBalanceOf, s) == ColumnSum(st.storeBalanceOf, s)
    decreases |list|
  {
    if list != [] {
      ResetKeeps(st, list[0], stream);
      ResetAllKeeps(Reset(st, list[0], stream), list[1..], stream);
    }
  }

  /** A floor-quotient share never exceeds the stake it is taken from, and whoever pays one
      keeps at least what the whole stream will be left with. */
  lemma QuotientShare(held: nat, stored: nat, amount: nat)
    requires 0 < stored && amount <= stored
    ensures held / stored * amount <= held
    ensures held / stored > 0 ==> held - held / stored * amount >= stored - amount
  {
    var q := held / stored;
    DivMod(held, stored);
    DivNonNegative(held, stored);
    MulMonotone(amount, stored, q);
    if q > 0 {
      MulMonotone(1, q, stored - amount);
      assert q * (stored - amount) == q * stored - q * amount;
    }
  }

  lemma DeductionCovered(st: State, user: Address, stream: Bytes, amount: Uint256)
    requires Balanced(st)
    requires 0 < Get(st.stores, stream) && amount <= Get(st.stores, stream)
    ensures Deduction(st, user, stream, amount).Ok?
    ensures var deduction := Deduction(st, user, stream, amount).value;
            var held := Get(st.storeBalanceOf, (user, stream));
            && deduction <= held <= Get(st.balanceOf, user)
            && (deduction > 0 ==> held - deduction >= Get(st.stores, stream) - amount)
  {
    QuotientShare(Get(st.storeBalanceOf, (user, stream)), Get(st.stores, stream), amount);
    RowCovers(st.storeBalanceOf, (user, stream));
  }

  lemma DeductKeeps(st: State, all: seq<Address>, user: Address, stream: Bytes, amount: Uint256)
    requires Balanced(st)
    requires 0 < Get(st.stores, stream) && amount <= Get(st.stores, stream)
    requires Get(st.stores, stream) - amount <= ColumnSum(st.storeBalanceOf, stream)
    ensures Deduct(st, all, user, stream, amount).Ok?
    ensures var st' := Deduct(st, all, user, stream, amount).value;
            && Balanced(st')
            && Get(st.stores, stream) - amount <= ColumnSum(st'.storeBalanceOf, stream)
            && forall s: Bytes :: s != stream ==> ColumnSum(st'.storeBalanceOf, s) == ColumnSum(st.storeBalanceOf, s)
  {
    var k := (user, stream);
    DeductionCovered(st, user, stream, amount);
    var deduction := Deduction(st, user, stream, amount).value;
    var held := Get(st.storeBalanceOf, k) - deduction;
    assert Deduct(st, all, user, stream, amount).value.storeBalanceOf == st.storeBalanceOf[k := held];
    RowSumsPut(st.balanceOf, st.storeBalanceOf, k, Get(st.balanceOf, user) - deduction, held);
    ColumnSumPut(st.storeBalanceOf, k, held, stream);
    ColumnCovers(st.storeBalanceOf[k := held], k);
    forall s: Bytes | s != stream
      ensures ColumnSum(st.storeBalanceOf[k := held], s) == ColumnSum(st.storeBalanceOf, s)
    {
      ColumnSumPut(st.storeBalanceOf, k, held, s);
    }
  }

  lemma {:induction false} DeductAllKeeps(st: State, all: seq<Address>, list: seq<Address>, stream: Bytes,
                                          amount: Uint256)
    requires Balanced(st)
    requires 0 < Get(st.stores, stream) && amount <= Get(st.stores, stream)
    requires Get(st.stores, stream) - amount <= ColumnSum(st.storeBalanceOf, stream)
    ensures DeductionsCovered(st, all, list, stream, amount)
    ensures DeductAll(st, all, list, stream, amount).Ok?
    ensures var st' := DeductAll(st, all, list, stream, amount).value;
            && Balanced(st')
            && st' == st.(balanceOf := st'.balanceOf, storeBalanceOf := st'.storeBalanceOf,
                          storeStakeholders := st'.storeStakeholders)
            && Get(st.stores, stream) - amount <= ColumnSum(st'.storeBalanceOf, stream)
            && forall s: Bytes :: s != stream ==> ColumnSum(st'.storeBalanceOf, s) == ColumnSum(st.storeBalanceOf, s)
    decreases |list|
  {
    if list != [] {
      DeductionCovered(st, list[0], stream, amount);
      DeductKeeps(st, all, list[0], stream, amount);
      DeductAllKeeps(Deduct(st, all, list[0], stream, amount).value, all, list[1..], stream, amount);
    }
  }

  lemma CaptureStakeKeeps(st: State, stream: Bytes, amount: Uint256)
    requires Balanced(st) && Backed(st)
    requires Get(st.stores, stream) > 0
    ensures CaptureStake(st, stream, amount).Ok?
    ensures var st' := CaptureStake(st, stream, amount).value;
            && Balanced(st') && Backed(st')
            && st'.stores == st.stores[stream := Get(st.stores, stream) - Captured(st, stream, amount)]
            && st'.totalSupply == st.totalSupply && st'.supplyOverflow == st.supplyOverflow
            && st'.captureOverflow == st.captureOverflow + (amount - Captured(st, stream, amount))
    ensures amount > Get(st.stores, stream) ==> ResetsCovered(st, Stakeholders(st, stream), stream)
    ensures amount <= Get(st.stores, stream) ==>
              DeductionsCovered(st, Stakeholders(st, stream), Stakeholders(st, stream), stream, amount)
  {
    if Get(st.stores, stream) < amount {
      ResetAllKeeps(st, Stakeholders(st, stream), stream);
    } else {
      DeductAllKeeps(st, Stakeholders(st, stream), Stakeholders(st, stream), stream, amount);
    }
  }

  /** A capture by the node manager succeeds whenever the stream has stake and the manager can be
      credited; "error_insufficientStake" is unreachable. */
  lemma CaptureSucceeds(st: State, ledger: Ledger, self: Address, parent: Address, stream: Bytes, amount: Uint256)
    requires Valid(st, Get(ledger, self)) && self != parent
    ensures Get(st.stores, stream) > 0 && Get(ledger, parent) + Captured(st, stream, amount) <= UINT256_MAX
       <==> Capture(st, ledger, self, parent, parent, stream, amount).Ok?
    ensures Capture(st, ledger, self, parent, parent, stream, amount) != Revert("error_insufficientStake")
  {
    SumCovers(st.stores, stream);
    if Get(st.stores, stream) > 0 {
      CaptureStakeKeeps(st, stream, amount);
    }
  }

  /** It keeps the invariant and moves exactly `Captured`, recording the rest as overflow. */
  lemma CaptureValid(st: State, ledger: Ledger, self: Address, parent: Address, stream: Bytes, amount: Uint256)
    requires Valid(st, Get(ledger, self)) && self != parent
    requires Capture(st, ledger, self, parent, parent, stream, amount).Ok?
    ensures var (st', ledger') := Capture(st, ledger, self, parent, parent, stream, amount).value;
            && Valid(st', Get(ledger', self))
            && Transfer(ledger, self, parent, Captured(st, stream, amount)) == Ok(ledger')
            && st'.captureOverflow == st.captureOverflow + (amount - Captured(st, stream, amount))
            && st'.totalSupply == (if amount > st.totalSupply then 0 else st.totalSupply - amount)
            && st'.supplyOverflow
                 == st.supplyOverflow + (if amount > st.totalSupply then amount - st.totalSupply else 0)
  {
    CaptureStakeKeeps(st, stream, amount);
    SumPut(st.stores, stream, Get(st.stores, stream) - Captured(st, stream, amount));
    var charged := CaptureStake(st, stream, amount).value;
    SupplyKeeps(charged, Sum(st.stores), amount, Captured(st, stream, amount));
  }

  lemma SupplyKeeps(st: State, before: nat, amount: Uint256, captured: Uint256)
    requires st.totalSupply <= before && captured <= amount && captured <= before
    requires Sum(st.stores) == before - captured
    requires st.totalSupply + st.captureOverflow == before + st.supplyOverflow + (amount - captured)
    requires st.captureOverflow == 0 ==> captured == amount && st.totalSupply == before && st.supplyOverflow == 0
    ensures var st' := CaptureSupply(st, amount);
            && st' == st.(totalSupply := st'.totalSupply, supplyOverflow := st'.supplyOverflow)
            && st'.totalSupply <= before - captured
            && st'.totalSupply + st'.captureOverflow == before - captured + st'.supplyOverflow
            && st'.totalSupply == (if amount > st.totalSupply then 0 else st.totalSupply - amount)
            && st'.supplyOverflow
                 == st.supplyOverflow + (if amount > st.totalSupply then amount - st.totalSupply else 0)
            && (st.captureOverflow == 0 ==> st'.totalSupply == before - captured && st'.supplyOverflow == 0)
  {
  }

  // ----- a stream with a single staker

  /** `x` is the only user who ever staked in `stream`. */
  ghost predicate Sole(st: State, stream: Bytes, x: Address) {
    && (forall y: Address :: y != x ==> Get(st.storeBalanceOf, (y, stream)) == 0)
    && Get(st.storeBalanceOf, (x, stream)) == Get(st.stores, stream)
    && Stakeholders(st, stream) == if Get(st.stores, stream) == 0 then [] else [x]
  }

  /** For such a stream the backing is exact, not merely sufficient. */
  lemma SoleExact(st: State, stream: Bytes, x: Address)
    requires Sole(st, stream, x)
    ensures ColumnSum(st.storeBalanceOf, stream) == Get(st.stores, stream)
  {
    var column := Column(st.storeBalanceOf, stream);
    var rest := column - {(x, stream)};
    forall k | k in rest ensures rest[k] == 0 {
      assert k.0 != x && Get(st.storeBalanceOf, (k.0, stream)) == 0;
    }
    SumEmpty(rest);
    if (x, stream) in column {
      SumRemove(column, (x, stream));
    } else {
      assert rest == column;
    }
  }

  lemma CreditSole(st: State, user: Address, stream: Bytes, amount: Uint256, s: Bytes, x: Address)
    requires Sole(st, s, x) && (s == stream ==> user == x) && amount > 0
    requires Credit(st, user, stream, amount).Ok?
    ensures Sole(Credit(st, user, stream, amount).value, s, x)
  {
    var st' := Credit(st, user, stream, amount).value;
    assert Stakeholders(st', s) == if Get(st'.stores, s) == 0 then [] else [x];
  }

  lemma CaptureSole(st: State, stream: Bytes, amount: Uint256, s: Bytes, x: Address)
    requires Sole(st, s, x) && Get(st.stores, stream) > 0
    requires CaptureStake(st, stream, amount).Ok?
    ensures Sole(CaptureStake(st, stream, amount).value, s, x)
  {
    if s != stream {
      CaptureElsewhere(st, stream, amount, s);
    } else if Get(st.stores, stream) < amount {
      assert ResetAll(st, [x], stream) == Reset(st, x, stream);
    } else {
      assert Get(st.storeBalanceOf, (x, stream)) / Get(st.stores, stream) == 1;
      assert Deduction(st, x, stream, amount) == Ok(amount);
      assert DeductAll(st, [x], [x], stream, amount) == Deduct(st, [x], x, stream, amount);
      assert Relisted([x], x) == [];
    }
  }

  /** A capture touches the books of its own stream only. */
  ghost predicate SameStream(st: State, st': State, s: Bytes) {
    && Get(st'.stores, s) == Get(st.stores, s)
    && Stakeholders(st', s) == Stakeholders(st, s)
    && forall y: Address :: Get(st'.storeBalanceOf, (y, s)) == Get(st.storeBalanceOf, (y, s))
  }

  lemma {:induction false} ResetElsewhere(st: State, list: seq<Address>, stream: Bytes, s: Bytes)
    requires s != stream
    ensures SameStream(st, ResetAll(st, list, stream), s)
    ensures ResetAll(st, list, stream).stores == st.stores
    decreases |list|
  {
    if list != [] {
      ResetElsewhere(Reset(st, list[0], stream), list[1..], stream, s);
    }
  }

  lemma {:induction false} DeductElsewhere(st: State, all: seq<Address>, list: seq<Address>, stream: Bytes,
                                           amount: Uint256, s: Bytes)
    requires s != stream
    requires DeductAll(st, all, list, stream, amount).Ok?
    ensures SameStream(st, DeductAll(st, all, list, stream, amount).value, s)
    decreases |list|
  {
    if list != [] {
      DeductElsewhere(Deduct(st, all, list[0], stream, amount).value, all, list[1..], stream, amount, s);
    }
  }

  lemma CaptureElsewhere(st: State, stream: Bytes, amount: Uint256, s: Bytes)
    requires s != stream
    requires CaptureStake(st, stream, amount).Ok?
    ensures SameStream(st, CaptureStake(st, stream, amount).value, s)
  {
    if Get(st.stores, stream) < amount {
      ResetElsewhere(st, Stakeholders(st, stream), stream, s);
    } else {
      DeductElsewhere(st, Stakeholders(st, stream), Stakeholders(st, stream), stream, amount, s);
    }
  }
}
