/** The two votes of `report`: the quorum of claimed participants and the count of verified proofs. */
module Consensus {
  import opened Evm
  import opened Mappings
  import opened Ranking
  import opened Reports
  import opened Schedule
  import opened Sequences

  // ----- quorum

  /** How many of the members occur among the participants. */
  function Present(members: seq<Address>, participants: seq<Address>): nat {
    if members == [] then 0 else
    Present(members[..|members| - 1], participants) + if members[|members| - 1] in participants then 1 else 0
  }

  function QuorumIsMet(participants: seq<Address>, members: seq<Address>): Outcome<bool> {
    if |members| * MATH_PRECISION > UINT256_MAX then Revert(PANIC_ARITHMETIC)
    else Ok(members != [] && 2 * Present(members, participants) >= |members|)
  }

  lemma {:induction false} PresentPrefix(members: seq<Address>, participants: seq<Address>, k: nat)
    requires k <= |members|
    ensures Present(members[..k], participants) <= Present(members, participants)
    decreases |members|
  {
    if k == |members| {
      assert members[..k] == members;
    } else {
      var most := members[..|members| - 1];
      PresentPrefix(most, participants, k);
      assert most[..k] == members[..k];
    }
  }

  ghost function Common(members: seq<Address>, participants: seq<Address>): set<Address> {
    set a | a in members && a in participants
  }

  lemma CommonAppend(most: seq<Address>, last: Address, participants: seq<Address>)
    ensures Common(most + [last], participants)
         == Common(most, participants) + if last in participants then {last} else {}
  {
  }

  /** For members without repetitions the count is the size of the intersection. */
  lemma {:induction false} PresentIsIntersection(members: seq<Address>, participants: seq<Address>)
    requires Distinct(members)
    ensures Present(members, participants) == |Common(members, participants)|
    decreases |members|
  {
    if members == [] {
      assert Common(members, participants) == {};
    } else {
      var most, last := members[..|members| - 1], members[|members| - 1];
      assert members == most + [last];
      DistinctPrefix(most, last);
      PresentIsIntersection(most, participants);
      CommonAppend(most, last, participants);
    }
  }

  /** `quorumIsMet`, which stops at the first member that completes the quorum. */
  method CheckQuorum(participants: seq<Address>, members: seq<Address>) returns (r: Outcome<bool>)
    ensures r == QuorumIsMet(participants, members)
  {
    if |members| * MATH_PRECISION > UINT256_MAX {
      return Revert(PANIC_ARITHMETIC);
    }
    var count: nat := 0;
    var minCount := |members| * MATH_PRECISION / 2;
    for i := 0 to |members|
      invariant count == Present(members[..i], participants) * MATH_PRECISION
      invariant i > 0 ==> count < minCount
    {
      assert members[..i + 1][..i] == members[..i];
      for j := 0 to |participants|
        invariant members[i] !in participants[..j]
        invariant count == Present(members[..i], participants) * MATH_PRECISION
      {
        if members[i] == participants[j] {
          count := count + 1 * MATH_PRECISION;
          break;
        }
      }
      assert participants[..|participants|] == participants;
      PresentPrefix(members, participants, i + 1);
      if count >= minCount {
        return Ok(true);
      }
    }
    assert members[..|members|] == members;
    return Ok(false);
  }

  // ----- proofs

  /** `ecrecover` behind the signed-message hash, as a function of the signed bytes and the signature. */
  type Recover = (Bytes, Bytes) -> Address

  const NO_PROOF := Proof(NO_ADDRESS, [], 0)

  /** VerifySignature.verify */
  predicate Verify(signer: Address, message: Bytes, signature: Bytes, recover: Recover) {
    |signature| == 65 && signer == recover(message, signature)
  }

  /** The last proof that the first `k` addresses offer for `reporter`. */
  function ProofFor(reporter: Address, p: Arguments, k: nat): Outcome<Proof>
    requires k <= |p.addresses|
  {
    if k == 0 then Ok(NO_PROOF) else
    var earlier :- ProofFor(reporter, p, k - 1);
    if p.addresses[k - 1] != reporter then Ok(earlier)
    else if k - 1 < |p.signatures| && k - 1 < |p.proofTimestamps| then
      Ok(Proof(reporter, p.signatures[k - 1], p.proofTimestamps[k - 1]))
    else Revert(PANIC_INDEX)
  }

  /** The bytes a proof with this timestamp has to sign. */
  function Message(p: Arguments, pack: Bytes, timestamp: Uint256): Bytes {
    Preimage(p.id, p.blockHeight, pack, p.treasurySupplyChange, timestamp)
  }

  predicate Verified(proof: Proof, p: Arguments, pack: Bytes, recover: Recover) {
    Verify(proof.signer, Message(p, pack, proof.timestamp), proof.signature, recover)
  }

  /** The reporter's proof if it verifies. */
  predicate Backs(reporter: Address, p: Arguments, pack: Bytes, recover: Recover) {
    && ProofFor(reporter, p, |p.addresses|).Ok?
    && Verified(ProofFor(reporter, p, |p.addresses|).value, p, pack, recover)
  }

  lemma {:induction false} ProofSigner(reporter: Address, p: Arguments, k: nat)
    requires k <= |p.addresses| && ProofFor(reporter, p, k).Ok?
    ensures ProofFor(reporter, p, k).value == NO_PROOF || ProofFor(reporter, p, k).value.signer == reporter
  {
    if k > 0 {
      ProofSigner(reporter, p, k - 1);
    }
  }

  /** A verified proof names the reporter it was looked up for. */
  lemma BackingSigner(reporter: Address, p: Arguments, pack: Bytes, recover: Recover)
    requires Backs(reporter, p, pack, recover)
    ensures ProofFor(reporter, p, |p.addresses|).value.signer == reporter
  {
    ProofSigner(reporter, p, |p.addresses|);
  }

  /** `j` is the last index at which `addresses` names `x`. */
  ghost predicate IsLast(addresses: seq<Address>, x: Address, j: nat) {
    j < |addresses| && addresses[j] == x && forall i :: j < i < |addresses| ==> addresses[i] != x
  }

  /** What is looked up is the signature and the timestamp at the last index that names the reporter. */
  lemma {:induction false} LookedUp(reporter: Address, p: Arguments, k: nat)
    requires k <= |p.addresses| && ProofFor(reporter, p, k).Ok?
    ensures reporter !in p.addresses[..k] ==> ProofFor(reporter, p, k).value == Proof(0, [], 0)
    ensures forall j: nat :: IsLast(p.addresses[..k], reporter, j) ==>
              && j < |p.signatures| && j < |p.proofTimestamps|
              && ProofFor(reporter, p, k).value == Proof(reporter, p.signatures[j], p.proofTimestamps[j])
  {
    if k > 0 {
      LookedUp(reporter, p, k - 1);
      assert p.addresses[..k][..k - 1] == p.addresses[..k - 1];
      forall j: nat | IsLast(p.addresses[..k], reporter, j)
        ensures if j == k - 1 then p.addresses[k - 1] == reporter
                else p.addresses[k - 1] != reporter && IsLast(p.addresses[..k - 1], reporter, j)
      {
      }
    }
  }

  method FindProof(reporter: Address, p: Arguments) returns (r: Outcome<Proof>)
    ensures r == ProofFor(reporter, p, |p.addresses|)
    ensures r.Ok? && reporter !in p.addresses ==> r.value == Proof(0, [], 0)
    ensures r.Ok? ==> forall j: nat :: IsLast(p.addresses, reporter, j) ==>
              && j < |p.signatures| && j < |p.proofTimestamps|
              && r.value == Proof(reporter, p.signatures[j], p.proofTimestamps[j])
  {
    var proof := NO_PROOF;
    for j := 0 to |p.addresses|
      invariant ProofFor(reporter, p, j) == Ok(proof)
    {
      if reporter == p.addresses[j] {
        if j >= |p.signatures| || j >= |p.proofTimestamps| {
          StuckProof(reporter, p, j + 1, |p.addresses|);
          return Revert(PANIC_INDEX);
        }
        proof := Proof(p.addresses[j], p.signatures[j], p.proofTimestamps[j]);
      }
    }
    LookedUp(reporter, p, |p.addresses|);
    assert p.addresses[..|p.addresses|] == p.addresses;
    return Ok(proof);
  }

  lemma {:induction false} StuckProof(reporter: Address, p: Arguments, j: nat, k: nat)
    requires j <= k <= |p.addresses| && ProofFor(reporter, p, j) == Revert(PANIC_INDEX)
    ensures ProofFor(reporter, p, k) == Revert(PANIC_INDEX)
  {
    if j < k {
      StuckProof(reporter, p, j, k - 1);
    }
  }

  // ----- the count (lines 235-281)

  /** The running result: reputations so far, proofs stored so far, and whether the sender was passed. */
  datatype Tally = Tally(rep: Reputations, proofs: seq<Proof>, led: bool)

  function Reward(t: Tally, sender: Address, proof: Proof): Outcome<Tally> {
    if sender == proof.signer then
      var rep :- Add(Get(t.rep, sender), 10);
      Ok(Tally(t.rep[sender := rep], t.proofs + [proof], true))
    else if !t.led then
      var rep := Get(t.rep, proof.signer);
      Ok(Tally(t.rep[proof.signer := rep - if rep >= 5 then 5 else rep], t.proofs + [proof], t.led))
    else
      var rep :- Add(Get(t.rep, proof.signer), 1);
      Ok(Tally(t.rep[proof.signer := rep], t.proofs + [proof], t.led))
  }

  /** One turn of the loop, at rank `i`. A bad proof resets the address that happens to be at index `i`. */
  function CountOne(reporters: seq<Address>, i: nat, p: Arguments, pack: Bytes, sender: Address, recover: Recover,
                    t: Tally): Outcome<Tally>
    requires i < |reporters|
  {
    var proof :- ProofFor(reporters[i], p, |p.addresses|);
    if Verified(proof, p, pack, recover) then Reward(t, sender, proof)
    else if i < |p.addresses| then Ok(t.(rep := t.rep[p.addresses[i] := 0]))
    else Revert(PANIC_INDEX)
  }

  function CountProofs(reporters: seq<Address>, i: nat, p: Arguments, pack: Bytes, sender: Address, recover: Recover,
                       t: Tally): Outcome<Tally>
    requires i <= |reporters|
    decreases |reporters| - i
  {
    if i == |reporters| then Ok(t) else
    var t' :- CountOne(reporters, i, p, pack, sender, recover, t);
    CountProofs(reporters, i + 1, p, pack, sender, recover, t')
  }

  /** The proofs of all the reporters from rank `i` on that verify, in rank order. */
  function BackedBy(reporters: seq<Address>, p: Arguments, pack: Bytes, recover: Recover): seq<Proof> {
    if reporters == [] then []
    else
      (if Backs(reporters[0], p, pack, recover) then [ProofFor(reporters[0], p, |p.addresses|).value] else [])
      + BackedBy(reporters[1..], p, pack, recover)
  }

  /** Exactly the verified proofs are stored. */
  lemma {:induction false} CountedAreBacking(reporters: seq<Address>, i: nat, p: Arguments, pack: Bytes,
                                             sender: Address, recover: Recover, t: Tally)
    requires i <= |reporters|
    requires CountProofs(reporters, i, p, pack, sender, recover, t).Ok?
    ensures CountProofs(reporters, i, p, pack, sender, recover, t).value.proofs
         == t.proofs + BackedBy(reporters[i..], p, pack, recover)
    decreases |reporters| - i
  {
    if i < |reporters| {
      var t' := CountOne(reporters, i, p, pack, sender, recover, t).value;
      CountedAreBacking(reporters, i + 1, p, pack, sender, recover, t');
      assert reporters[i..][1..] == reporters[i + 1..];
    }
  }

  function Signers(proofs: seq<Proof>): seq<Address> {
    if proofs == [] then [] else [proofs[0].signer] + Signers(proofs[1..])
  }

  /** Proofs by reporters of their own, in rank order, all verified. */
  ghost predicate Sound(proofs: seq<Proof>, reporters: seq<Address>, p: Arguments, pack: Bytes, recover: Recover) {
    && |proofs| <= |reporters|
    && Distinct(Signers(proofs))
    && (forall x :: x in Signers(proofs) ==> x in reporters)
    && (forall x, y :: Before(Signers(proofs), x, y) ==> Before(reporters, x, y))
    && (forall proof :: proof in proofs ==> Verified(proof, p, pack, recover))
  }

  lemma {:induction false} BackersSound(reporters: seq<Address>, p: Arguments, pack: Bytes, recover: Recover)
    requires Distinct(reporters)
    ensures Sound(BackedBy(reporters, p, pack, recover), reporters, p, pack, recover)
  {
    if reporters != [] {
      var rest := BackedBy(reporters[1..], p, pack, recover);
      var proofs := BackedBy(reporters, p, pack, recover);
      BackersSound(reporters[1..], p, pack, recover);
      if Backs(reporters[0], p, pack, recover) {
        BackingSigner(reporters[0], p, pack, recover);
        assert proofs[1..] == rest;
        assert Signers(proofs) == [reporters[0]] + Signers(rest);
        assert Signers(proofs)[1..] == Signers(rest);
      } else {
        assert proofs == rest;
      }
      forall x, y | Before(Signers(proofs), x, y) ensures Before(reporters, x, y) {
        BeforeIn(Signers(rest), x, y);
      }
    }
  }

  // ----- which reports the loop can count at all

  /** Every reporter from rank `i` on whose rank is no index into `addresses` has a verified proof. */
  ghost predicate TailBacked(reporters: seq<Address>, i: nat, p: Arguments, pack: Bytes, recover: Recover) {
    forall k :: i <= k < |reporters| && k >= |p.addresses| ==> Backs(reporters[k], p, pack, recover)
  }

  /** The loop gets past an unverified reporter only if its rank is an index into `addresses`: it counts
      a report only if the tail is backed, and then does count it unless a reputation overflows. */
  lemma {:induction false} CountNeedsTheTail(reporters: seq<Address>, i: nat, p: Arguments, pack: Bytes,
                                             sender: Address, recover: Recover, t: Tally)
    requires i <= |reporters|
    requires forall k :: 0 <= k < |reporters| ==> ProofFor(reporters[k], p, |p.addresses|).Ok?
    ensures CountProofs(reporters, i, p, pack, sender, recover, t).Ok? ==> TailBacked(reporters, i, p, pack, recover)
    ensures TailBacked(reporters, i, p, pack, recover) ==>
              CountProofs(reporters, i, p, pack, sender, recover, t) != Revert(PANIC_INDEX)
    decreases |reporters| - i
  {
    assert PANIC_ARITHMETIC[8] != PANIC_INDEX[8];
    if i < |reporters| {
      var one := CountOne(reporters, i, p, pack, sender, recover, t);
      if one.Ok? {
        CountNeedsTheTail(reporters, i + 1, p, pack, sender, recover, one.value);
      } else {
        assert TailBacked(reporters, i, p, pack, recover) ==> one == Revert(PANIC_ARITHMETIC);
      }
    }
  }

  // ----- reputations when every reporter's proof verifies

  function AfterReport(rep: Uint256, s: seq<Address>, sender: Address, led: bool, x: Address): int {
    if x !in s then rep
    else if x == sender then rep + 10
    else if led || Before(s, sender, x) then rep + 1
    else if rep >= 5 then rep - 5 else 0
  }

  lemma {:induction false} ReputationsAfter(reporters: seq<Address>, i: nat, p: Arguments, pack: Bytes,
                                            sender: Address, recover: Recover, t: Tally, x: Address)
    requires i <= |reporters| && Distinct(reporters[i..])
    requires forall k :: i <= k < |reporters| ==> Backs(reporters[k], p, pack, recover)
    requires CountProofs(reporters, i, p, pack, sender, recover, t).Ok?
    ensures Get(CountProofs(reporters, i, p, pack, sender, recover, t).value.rep, x)
         == AfterReport(Get(t.rep, x), reporters[i..], sender, t.led, x)
    decreases |reporters| - i
  {
    if i < |reporters| {
      BackingSigner(reporters[i], p, pack, recover);
      var t' := CountOne(reporters, i, p, pack, sender, recover, t).value;
      assert reporters[i..][1..] == reporters[i + 1..] && reporters[i..][0] == reporters[i];
      BeforeIn(reporters[i + 1..], sender, x);
      ReputationsAfter(reporters, i + 1, p, pack, sender, recover, t', x);
    }
  }

  /** In the next ranking of the same members everybody who was behind the sender is still behind it,
      and in the order they had among themselves. */
  lemma OrderBehindSender(members: seq<Address>, rep: Reputations, rep': Reputations, sender: Address, x: Address,
                          y: Address)
    requires Distinct(members) && sender in members && x in members && y in members
    requires var ranked := Ranked(members, rep);
             && Before(ranked, sender, x) && Before(ranked, sender, y)
             && forall z :: Get(rep', z) == AfterReport(Get(rep, z), ranked, sender, false, z)
    ensures Before(Ranked(members, rep'), sender, x)
    ensures x != y ==> (Before(Ranked(members, rep'), x, y) <==> Before(Ranked(members, rep), x, y))
  {
    var ranked := Ranked(members, rep);
    RankedDistinct(members, rep);
    RankedIn(members, rep, sender);
    BeforeIn(ranked, sender, x);
    BeforeIn(ranked, sender, y);
    BeforeIrreflexive(ranked, sender);
    RankedBefore(members, rep, sender, x);
    RankedBefore(members, rep', sender, x);
    if x != y {
      RankedBefore(members, rep, x, y);
      RankedBefore(members, rep', x, y);
    }
  }
}
