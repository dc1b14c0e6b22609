/** How far the captured fees are from what the comments of `capture` announce: fees proportional to stake, and a
    stakeholder list without those whose stake is finished. */
module Fees {
  import opened Arithmetic
  import opened Evm
  import opened Mappings
  import opened Stores

  // ----- proportional fees

  /** The proportional fee, rounded down once. */
  function Share(held: nat, stored: nat, amount: nat): int
    requires stored > 0
  {
    held * amount / stored
  }

  /** Dividing first is never more than the proportional fee, and is the same exactly if what the division
      drops is worth less than one token. */
  lemma QuotientExact(held: nat, stored: nat, amount: nat)
    requires stored > 0
    ensures held / stored * amount <= Share(held, stored, amount)
    ensures held / stored * amount == Share(held, stored, amount) <==> held % stored * amount < stored
  {
    var q, r := held / stored, held % stored;
    DivMod(held, stored);
    MulNonNegative(r, amount);
    var extra := r * amount / stored;
    DivMod(r * amount, stored);
    DivNonNegative(r * amount, stored);
    assert held * amount == (q * amount + extra) * stored + r * amount % stored by {
      assert held * amount == q * stored * amount + r * amount;
      assert (q * amount + extra) * stored == q * amount * stored + extra * stored;
      assert q * stored * amount == q * amount * stored;
    }
    DivUnique(held * amount, stored, q * amount + extra, r * amount % stored);
    assert extra == 0 <==> r * amount < stored by {
      if extra > 0 {
        MulMonotone(1, extra, stored);
      }
    }
  }

  lemma DeductionIsQuotient(st: State, user: Address, stream: Bytes, amount: Uint256)
    requires 0 < Get(st.stores, stream) && amount <= Get(st.stores, stream)
    ensures Deduction(st, user, stream, amount)
         == Ok(Get(st.storeBalanceOf, (user, stream)) / Get(st.stores, stream) * amount)
  {
    var held, stored := Get(st.storeBalanceOf, (user, stream)), Get(st.stores, stream);
    QuotientShare(held, stored, amount);
    DivAtMost(held, stored);
    MulNonNegative(held / stored, amount);
  }

  // ----- what a capture charges

  /** How often the list names `x`. */
  function Times(list: seq<Address>, x: Address): nat {
    if list == [] then 0 else (if list[0] == x then 1 else 0) + Times(list[1..], x)
  }

  /** What is left of a stake after as many turns, each of which takes the quotient's worth off what is left. */
  function HeldAfter(held: nat, stored: nat, amount: nat, turns: nat): (left: nat)
    requires 0 < stored && amount <= stored
    ensures left <= held
    decreases turns
  {
    if turns == 0 then held else
    QuotientShare(held, stored, amount);
    MulNonNegative(held / stored, amount);
    HeldAfter(held - held / stored * amount, stored, amount, turns - 1)
  }

  lemma DeductHeld(st: State, all: seq<Address>, user: Address, stream: Bytes, amount: Uint256, st': State, x: Address)
    requires 0 < Get(st.stores, stream) && amount <= Get(st.stores, stream)
    requires Deduct(st, all, user, stream, amount) == Ok(st')
    ensures st'.stores == st.stores
    ensures Get(st'.storeBalanceOf, (x, stream))
         == HeldAfter(Get(st.storeBalanceOf, (x, stream)), Get(st.stores, stream), amount, if x == user then 1 else 0)
  {
    DeductionIsQuotient(st, user, stream, amount);
    QuotientShare(Get(st.storeBalanceOf, (user, stream)), Get(st.stores, stream), amount);
    if x == user {
      OneTurn(Get(st.storeBalanceOf, (x, stream)), Get(st.stores, stream), amount, 0);
    }
  }

  lemma OneTurn(held: nat, stored: nat, amount: nat, turns: nat)
    requires 0 < stored && amount <= stored
    ensures 0 <= held - held / stored * amount <= held
    ensures HeldAfter(held, stored, amount, turns + 1)
         == HeldAfter(held - held / stored * amount, stored, amount, turns)
    ensures HeldAfter(held, stored, amount, 1) == held - held / stored * amount
  {
    QuotientShare(held, stored, amount);
    MulNonNegative(held / stored, amount);
  }

  lemma {:induction false} DeductAllHeld(st: State, all: seq<Address>, list: seq<Address>, stream: Bytes,
                                         amount: Uint256, st': State, x: Address)
    requires 0 < Get(st.stores, stream) && amount <= Get(st.stores, stream)
    requires DeductAll(st, all, list, stream, amount) == Ok(st')
    ensures st'.stores == st.stores
    ensures Get(st'.storeBalanceOf, (x, stream))
         == HeldAfter(Get(st.storeBalanceOf, (x, stream)), Get(st.stores, stream), amount, Times(list, x))
    decreases |list|
  {
    if list != [] {
      var st1 := Deduct(st, all, list[0], stream, amount).value;
      DeductHeld(st, all, list[0], stream, amount, st1, x);
      DeductAllHeld(st1, all, list[1..], stream, amount, st', x);
      if list[0] == x {
        OneTurn(Get(st.storeBalanceOf, (x, stream)), Get(st.stores, stream), amount, Times(list[1..], x));
      }
    }
  }

  /** A capture within the stream's stake charges each staker once for every time the list names it, and not at all
      if the list does not. */
  lemma CaptureCharges(st: State, stream: Bytes, amount: Uint256, st': State, x: Address)
    requires 0 < Get(st.stores, stream) && amount <= Get(st.stores, stream)
    requires CaptureStake(st, stream, amount) == Ok(st')
    ensures Get(st'.storeBalanceOf, (x, stream))
         == HeldAfter(Get(st.storeBalanceOf, (x, stream)), Get(st.stores, stream), amount,
                      Times(Stakeholders(st, stream), x))
  {
    var list := Stakeholders(st, stream);
    DeductAllHeld(st, list, list, stream, amount, DeductAll(st, list, list, stream, amount).value, x);
  }

  /** A second turn that charges anything charges too much. */
  lemma LaterTurns(held: nat, stored: nat, amount: nat, turns: nat)
    requires 0 < stored && amount <= stored && turns >= 2
    ensures var left := held - held / stored * amount;
            && (left < stored ==> HeldAfter(held, stored, amount, turns) == left)
            && (left >= stored && amount > 0 ==>
                  held - HeldAfter(held, stored, amount, turns) > Share(held, stored, amount))
  {
    var left := held - held / stored * amount;
    OneTurn(held, stored, amount, turns - 1);
    if left < stored {
      NoMoreTurns(left, stored, amount, turns - 1);
    } else if amount > 0 {
      OneTurn(left, stored, amount, turns - 2);
      OneMore(left, stored, amount);
      ShareBelow(held, stored, amount);
    }
  }

  lemma OneMore(left: nat, stored: nat, amount: nat)
    requires 0 < stored <= left
    ensures left / stored * amount >= amount
  {
    DivMod(left, stored);
    if left / stored <= 0 {
      MulMonotone(left / stored, 0, stored);
    }
    MulMonotone(1, left / stored, amount);
  }

  lemma {:induction false} NoMoreTurns(held: nat, stored: nat, amount: nat, turns: nat)
    requires held < stored && amount <= stored
    ensures HeldAfter(held, stored, amount, turns) == held
  {
    if turns > 0 {
      OneTurn(held, stored, amount, turns - 1);
      DivUnique(held, stored, 0, held);
      NoMoreTurns(held, stored, amount, turns - 1);
    }
  }

  lemma ShareBelow(held: nat, stored: nat, amount: nat)
    requires 0 < stored && 0 < amount
    ensures Share(held, stored, amount) < held / stored * amount + amount
  {
    var q, dropped := held / stored, stored - held % stored;
    DivMod(held, stored);
    DivMod(held * amount, stored);
    MulMonotone(1, dropped, amount);
    assert (q * amount + amount) * stored == held * amount + dropped * amount by {
      assert (q * amount + amount) * stored == (q * stored + stored) * amount;
      assert (held + dropped) * amount == held * amount + dropped * amount;
    }
    if Share(held, stored, amount) >= q * amount + amount {
      MulMonotone(q * amount + amount, Share(held, stored, amount), stored);
    }
  }

  /** What a capture takes from a staker is its proportional fee exactly if
      - it is not listed and the fee is below one token, or
      - nothing is captured, or
      - it is listed, the division drops less than one token, and a second turn, if there is one, finds less than
        one share left. Otherwise a second turn charges more than the fee. */
  lemma ProportionalIff(st: State, stream: Bytes, amount: Uint256, st': State, x: Address)
    requires 0 < Get(st.stores, stream) && amount <= Get(st.stores, stream)
    requires CaptureStake(st, stream, amount) == Ok(st')
    ensures var held, stored := Get(st.storeBalanceOf, (x, stream)), Get(st.stores, stream);
            var n, paid := Times(Stakeholders(st, stream), x), held - Get(st'.storeBalanceOf, (x, stream));
            && (paid == Share(held, stored, amount) <==>
                  if n == 0 then held * amount < stored
                  else || amount == 0
                       || (held % stored * amount < stored && (n == 1 || held - held / stored * amount < stored)))
            && (n <= 1 ==> paid <= Share(held, stored, amount))
            && (n > 1 && amount > 0 && held - held / stored * amount >= stored ==> paid > Share(held, stored, amount))
  {
    CaptureCharges(st, stream, amount, st', x);
    ChargedIff(Get(st.storeBalanceOf, (x, stream)), Get(st.stores, stream), amount, Times(Stakeholders(st, stream), x));
  }

  lemma ChargedIff(held: nat, stored: nat, amount: nat, n: nat)
    requires 0 < stored && amount <= stored
    ensures var paid := held - HeldAfter(held, stored, amount, n);
            && (paid == Share(held, stored, amount) <==>
                  if n == 0 then held * amount < stored
                  else || amount == 0
                       || (held % stored * amount < stored && (n == 1 || held - held / stored * amount < stored)))
            && (n <= 1 ==> paid <= Share(held, stored, amount))
            && (n > 1 && amount > 0 && held - held / stored * amount >= stored ==> paid > Share(held, stored, amount))
  {
    QuotientExact(held, stored, amount);
    OneTurn(held, stored, amount, 0);
    if n == 0 {
      NothingIff(held, stored, amount);
    } else if n >= 2 {
      LaterTurns(held, stored, amount, n);
      if amount == 0 {
        FreeTurns(held, stored, n);
      }
    }
  }

  lemma NothingIff(held: nat, stored: nat, amount: nat)
    requires 0 < stored
    ensures 0 <= Share(held, stored, amount) && (Share(held, stored, amount) == 0 <==> held * amount < stored)
  {
    MulNonNegative(held, amount);
    DivMod(held * amount, stored);
    DivNonNegative(held * amount, stored);
    if Share(held, stored, amount) >= 1 {
      MulMonotone(1, Share(held, stored, amount), stored);
    }
  }

  lemma {:induction false} FreeTurns(held: nat, stored: nat, turns: nat)
    requires 0 < stored
    ensures HeldAfter(held, stored, 0, turns) == held && Share(held, stored, 0) == 0
  {
    DivUnique(0, stored, 0, 0);
    if turns > 0 {
      OneTurn(held, stored, 0, turns - 1);
      FreeTurns(held, stored, turns - 1);
    }
  }

  // ----- the stakeholder list

  /** The list without `user`. */
  function Others(list: seq<Address>, user: Address): seq<Address> {
    if list == [] then [] else (if list[0] != user then [list[0]] else []) + Others(list[1..], user)
  }

  lemma {:induction false} RelistedIsCopies(list: seq<Address>, user: Address)
    ensures |Relisted(list, user)| == |Others(list, user)|
    ensures forall i :: 0 <= i < |Relisted(list, user)| ==> Relisted(list, user)[i] == user
    ensures forall i :: 0 <= i < |Others(list, user)| ==> Others(list, user)[i] != user
  {
    if list != [] {
      RelistedIsCopies(list[1..], user);
    }
  }

  lemma {:induction false} NoOthers(list: seq<Address>, user: Address)
    ensures Others(list, user) == [] <==> forall x :: x in list ==> x == user
  {
    if list != [] {
      NoOthers(list[1..], user);
      assert list[0] in list;
      assert forall x :: x in list <==> x == list[0] || x in list[1..];
    }
  }

  /** The rebuilt list is the list without the user exactly if nobody else was on it. */
  lemma RelistedIff(list: seq<Address>, user: Address)
    ensures Relisted(list, user) == Others(list, user) <==> forall x :: x in list ==> x == user
  {
    RelistedIsCopies(list, user);
    NoOthers(list, user);
    if Others(list, user) != [] {
      assert Relisted(list, user)[0] != Others(list, user)[0];
    }
  }

  /** So a stakeholder whose stake is finished leaves the others on the list exactly if there are none. */
  lemma FinishedIff(st: State, all: seq<Address>, user: Address, stream: Bytes, amount: Uint256, st': State)
    requires Deduct(st, all, user, stream, amount) == Ok(st')
    requires Get(st'.storeBalanceOf, (user, stream)) == 0
    ensures Stakeholders(st', stream) == Others(all, user) <==> forall x :: x in all ==> x == user
  {
    RelistedIff(all, user);
  }

  lemma {:induction false} NothingLeft(stored: nat, amount: nat, turns: nat)
    requires 0 < stored && amount <= stored
    ensures HeldAfter(0, stored, amount, turns) == 0
  {
  }

  /** The list after the turns for `list`: as it was, or rebuilt from `all` for a stakeholder that is finished. */
  lemma {:induction false} ListAfterTurns(st: State, all: seq<Address>, list: seq<Address>, stream: Bytes,
                                          amount: Uint256, st': State)
    requires 0 < Get(st.stores, stream) && amount <= Get(st.stores, stream)
    requires DeductAll(st, all, list, stream, amount) == Ok(st')
    ensures if forall x :: x in list ==> Get(st'.storeBalanceOf, (x, stream)) > 0
            then Stakeholders(st', stream) == Stakeholders(st, stream)
            else exists u :: u in list && Get(st'.storeBalanceOf, (u, stream)) == 0
                          && Stakeholders(st', stream) == Relisted(all, u)
    decreases |list|
  {
    if list != [] {
      var u := list[0];
      var st1 := Deduct(st, all, u, stream, amount).value;
      DeductHeld(st, all, u, stream, amount, st1, u);
      DeductAllHeld(st1, all, list[1..], stream, amount, st', u);
      ListAfterTurns(st1, all, list[1..], stream, amount, st');
      if Get(st1.storeBalanceOf, (u, stream)) == 0 {
        NothingLeft(Get(st1.stores, stream), amount, Times(list[1..], u));
        assert Stakeholders(st1, stream) == Relisted(all, u);
      } else {
        assert Stakeholders(st1, stream) == Stakeholders(st, stream);
        NotListed(list[1..], u);
      }
      assert forall x :: x in list <==> x == u || x in list[1..];
    }
  }

  lemma {:induction false} NotListed(list: seq<Address>, x: Address)
    ensures Times(list, x) == 0 <==> x !in list
  {
    if list != [] {
      NotListed(list[1..], x);
      assert x in list <==> x == list[0] || x in list[1..];
    }
  }

  /** The entries that still have stake in the stream. */
  function StillStaking(list: seq<Address>, st: State, stream: Bytes): seq<Address> {
    if list == [] then [] else
    (if Get(st.storeBalanceOf, (list[0], stream)) > 0 then [list[0]] else []) + StillStaking(list[1..], st, stream)
  }

  lemma {:induction false} StillStakingIn(list: seq<Address>, st: State, stream: Bytes)
    ensures StillStaking(list, st, stream) == list
       <==> forall x :: x in list ==> Get(st.storeBalanceOf, (x, stream)) > 0
    ensures StillStaking(list, st, stream) == [] <==> forall x :: x in list ==> Get(st.storeBalanceOf, (x, stream)) == 0
    ensures forall x :: x in StillStaking(list, st, stream) ==> Get(st.storeBalanceOf, (x, stream)) > 0
    ensures |StillStaking(list, st, stream)| <= |list|
  {
    if list != [] {
      StillStakingIn(list[1..], st, stream);
      assert forall x :: x in list <==> x == list[0] || x in list[1..];
      assert list == [list[0]] + list[1..];
    }
  }

  /** After a capture within the stream's stake the list is that of the stakers who are left, as announced, exactly
      if none of those listed is finished or all entries are the same staker. */
  lemma ListIff(st: State, stream: Bytes, amount: Uint256, st': State)
    requires 0 < Get(st.stores, stream) && amount <= Get(st.stores, stream)
    requires CaptureStake(st, stream, amount) == Ok(st')
    ensures var list := Stakeholders(st, stream);
            Stakeholders(st', stream) == StillStaking(list, st', stream)
            <==> || (forall x :: x in list ==> Get(st'.storeBalanceOf, (x, stream)) > 0)
                 || (forall x, y :: x in list && y in list ==> x == y)
  {
    var list := Stakeholders(st, stream);
    ListAfterTurns(st, list, list, stream, amount, DeductAll(st, list, list, stream, amount).value);
    StillStakingIn(list, st', stream);
    if !forall x :: x in list ==> Get(st'.storeBalanceOf, (x, stream)) > 0 {
      var u :| u in list && Get(st'.storeBalanceOf, (u, stream)) == 0 && Stakeholders(st', stream) == Relisted(list, u);
      RelistedIsCopies(list, u);
      NoOthers(list, u);
      if Relisted(list, u) != [] {
        assert Relisted(list, u)[0] == u;
        assert u !in StillStaking(list, st', stream);
      }
    }
  }

  // ----- captures beyond the stream's stake

  lemma {:induction false} ResetAllHeld(st: State, list: seq<Address>, stream: Bytes, x: Address)
    ensures Get(ResetAll(st, list, stream).storeBalanceOf, (x, stream))
         == if x in list then 0 else Get(st.storeBalanceOf, (x, stream))
    decreases |list|
  {
    if list != [] {
      ResetAllHeld(Reset(st, list[0], stream), list[1..], stream, x);
      assert x in list <==> x == list[0] || x in list[1..];
    }
  }

  /** A capture beyond the stream's stake takes everything from those on the list and nothing from anybody else. */
  lemma CaptureClears(st: State, stream: Bytes, amount: Uint256, st': State, x: Address)
    requires Get(st.stores, stream) < amount
    requires CaptureStake(st, stream, amount) == Ok(st')
    ensures Get(st'.storeBalanceOf, (x, stream))
         == if x in Stakeholders(st, stream) then 0 else Get(st.storeBalanceOf, (x, stream))
  {
    ResetAllHeld(st, Stakeholders(st, stream), stream, x);
  }

  // ----- one stream, two stakers, two captures

  function TwoStakers(a: Address, b: Address, stream: Bytes): State {
    EMPTY.(totalSupply := 6, stores := map[stream := 6], storeStakeholders := map[stream := [a, b]],
           balanceOf := map[a := 4][b := 2], storeBalanceOf := map[(a, stream) := 4][(b, stream) := 2])
  }

  lemma TwoStakersStaked(a: Address, b: Address, stream: Bytes)
    requires a != b
    ensures Credit(EMPTY, a, stream, 4).Ok?
    ensures Credit(Credit(EMPTY, a, stream, 4).value, b, stream, 2) == Ok(TwoStakers(a, b, stream))
  {
    var st, first := TwoStakers(a, b, stream), Credited(EMPTY, a, stream, 4);
    assert first.storeBalanceOf == map[(a, stream) := 4] && first.balanceOf == map[a := 4];
    assert Stakeholders(first, stream) == [a] && Stakeholders(first, stream) + [b] == [a, b];
    assert Get(first.storeBalanceOf, (b, stream)) == 0 && Get(first.balanceOf, b) == 0;
    var second := Credited(first, b, stream, 2);
    assert second.stores == st.stores && second.storeStakeholders == st.storeStakeholders;
    assert second.balanceOf == st.balanceOf && second.storeBalanceOf == st.storeBalanceOf;
  }

  /** Paying nothing changes nothing. */
  lemma PaysNothing(st: State, all: seq<Address>, user: Address, stream: Bytes, amount: Uint256)
    requires Deduction(st, user, stream, amount) == Ok(0)
    requires user in st.balanceOf && (user, stream) in st.storeBalanceOf && st.storeBalanceOf[(user, stream)] > 0
    ensures Deduct(st, all, user, stream, amount) == Ok(st)
  {
    var k := (user, stream);
    assert st.balanceOf[user := st.balanceOf[user]] == st.balanceOf;
    assert st.storeBalanceOf[k := st.storeBalanceOf[k]] == st.storeBalanceOf;
  }

  /** The first staker owns two thirds of the stream and pays nothing for a capture of two. */
  lemma NothingPaid(a: Address, b: Address, stream: Bytes)
    requires a != b
    ensures Deduction(TwoStakers(a, b, stream), a, stream, 2) == Ok(0) && Share(4, 6, 2) == 1
    ensures CaptureStake(TwoStakers(a, b, stream), stream, 2)
         == Ok(TwoStakers(a, b, stream).(stores := map[stream := 4]))
  {
    var st := TwoStakers(a, b, stream);
    PaysNothing(st, [a, b], a, stream, 2);
    PaysNothing(st, [a, b], b, stream, 2);
    assert [a, b][1..] == [b] && [b][1..] == [];
    assert DeductAll(st, [a, b], [b], stream, 2) == DeductAll(st, [a, b], [], stream, 2) == Ok(st);
    assert DeductAll(st, [a, b], [a, b], stream, 2) == Ok(st);
    assert st.stores[stream := 4] == map[stream := 4];
  }

  function FirstFinished(a: Address, b: Address, stream: Bytes): State {
    EMPTY.(totalSupply := 6, stores := map[stream := 0], storeStakeholders := map[stream := [a]],
           balanceOf := map[a := 0][b := 2], storeBalanceOf := map[(a, stream) := 0][(b, stream) := 2])
  }

  /** The next capture finishes the first staker's stake and takes nothing from the second one. Who is left on
      the list is the first. */
  lemma RemainingStakerVanishes(a: Address, b: Address, stream: Bytes)
    requires a != b
    ensures var st := TwoStakers(a, b, stream).(stores := map[stream := 4]);
            CaptureStake(st, stream, 4) == Ok(FirstFinished(a, b, stream))
  {
    var st, st' := TwoStakers(a, b, stream).(stores := map[stream := 4]), FirstFinished(a, b, stream);
    var st1 := st'.(stores := map[stream := 4]);
    assert [a, b][1..] == [b] && [b][1..] == [];
    assert Relisted([b], a) == [a] && Relisted([a, b], a) == [a];
    assert Deduction(st, a, stream, 4) == Ok(4);
    assert st.balanceOf[a := 0] == st1.balanceOf && st.storeBalanceOf[(a, stream) := 0] == st1.storeBalanceOf;
    assert st.storeStakeholders[stream := [a]] == st1.storeStakeholders;
    assert Deduct(st, [a, b], a, stream, 4) == Ok(st1);
    PaysNothing(st1, [a, b], b, stream, 4);
    assert DeductAll(st1, [a, b], [b], stream, 4) == DeductAll(st1, [a, b], [], stream, 4) == Ok(st1);
    assert DeductAll(st, [a, b], [a, b], stream, 4) == Ok(st1);
    assert st1.stores[stream := 0] == st'.stores;
  }

  // ----- both stake again

  function StakedAgain(a: Address, b: Address, stream: Bytes): State {
    EMPTY.(totalSupply := 12, stores := map[stream := 6], storeStakeholders := map[stream := [a, a]],
           balanceOf := map[a := 4][b := 4], storeBalanceOf := map[(a, stream) := 4][(b, stream) := 4])
  }

  /** The first staker is listed a second time, the second one not at all. */
  lemma StakersReturn(a: Address, b: Address, stream: Bytes)
    requires a != b
    ensures Credit(FirstFinished(a, b, stream), a, stream, 4).Ok?
    ensures Credit(Credit(FirstFinished(a, b, stream), a, stream, 4).value, b, stream, 2)
         == Ok(StakedAgain(a, b, stream))
  {
    var st, first := StakedAgain(a, b, stream), Credited(FirstFinished(a, b, stream), a, stream, 4);
    assert first.storeBalanceOf == map[(a, stream) := 4][(b, stream) := 2] && first.balanceOf == map[a := 4][b := 2];
    assert [a] + [a] == [a, a];
    var second := Credited(first, b, stream, 2);
    assert second.stores == st.stores && second.storeStakeholders == st.storeStakeholders;
    assert second.balanceOf == st.balanceOf && second.storeBalanceOf == st.storeBalanceOf;
  }

  lemma NothingPaidAgain(a: Address, b: Address, stream: Bytes)
    requires a != b
    ensures CaptureStake(StakedAgain(a, b, stream), stream, 4)
         == Ok(StakedAgain(a, b, stream).(stores := map[stream := 2]))
  {
    var st := StakedAgain(a, b, stream);
    PaysNothing(st, [a, a], a, stream, 4);
    assert [a, a][1..] == [a] && [a][1..] == [];
    assert DeductAll(st, [a, a], [a], stream, 4) == DeductAll(st, [a, a], [], stream, 4) == Ok(st);
    assert DeductAll(st, [a, a], [a, a], stream, 4) == Ok(st);
    assert st.stores[stream := 2] == map[stream := 2];
  }

  /** With equal stakes of 4 in a stream of 2, a capture of one takes three tokens from the staker who is listed
      twice and none from the other. The proportional fee of each is two. */
  lemma ChargedTwice(a: Address, b: Address, stream: Bytes)
    requires a != b
    ensures var st := StakedAgain(a, b, stream).(stores := map[stream := 2]);
            && Share(4, 2, 1) == 2
            && CaptureStake(st, stream, 1).Ok?
            && var st' := CaptureStake(st, stream, 1).value;
               Get(st'.storeBalanceOf, (a, stream)) == 4 - 3 && Get(st'.storeBalanceOf, (b, stream)) == 4
  {
    var st := StakedAgain(a, b, stream).(stores := map[stream := 2]);
    assert Deduction(st, a, stream, 1) == Ok(2);
    var st1 := Deduct(st, [a, a], a, stream, 1).value;
    assert Deduction(st1, a, stream, 1) == Ok(1);
    var st2 := Deduct(st1, [a, a], a, stream, 1).value;
    assert [a, a][1..] == [a] && [a][1..] == [];
    assert DeductAll(st1, [a, a], [a], stream, 1) == DeductAll(st2, [a, a], [], stream, 1) == Ok(st2);
    assert DeductAll(st, [a, a], [a, a], stream, 1) == Ok(st2);
  }
}
