/** Which proofs an accepted report stores, in terms of the submitted arrays alone. */
module Proofs {
  import opened Consensus
  import opened Evm
  import opened HexStrings
  import opened Mappings
  import opened Ranking
  import opened ReportManager
  import opened Reports
  import opened Sequences

  /** The signature at index `j` has 65 bytes and recovers to `x` from the packed id, height, content, treasury change
      and the timestamp at the same index. */
  ghost predicate Signed(x: Address, j: nat, p: Arguments, pack: Bytes, recover: Recover) {
    && j < |p.signatures| && j < |p.proofTimestamps|
    && |p.signatures[j]| == 65
    && recover(p.id + PackUint(p.blockHeight) + pack + Hex(p.treasurySupplyChange) + PackUint(p.proofTimestamps[j]),
               p.signatures[j]) == x
  }

  /** A reporter backs the report exactly if the last entry with its address is signed by it. */
  lemma BacksIff(x: Address, p: Arguments, pack: Bytes, recover: Recover)
    requires ProofFor(x, p, |p.addresses|).Ok?
    ensures Backs(x, p, pack, recover)
       <==> exists j: nat :: IsLast(p.addresses, x, j) && Signed(x, j, p, pack, recover)
  {
    LookedUp(x, p, |p.addresses|);
    assert p.addresses[..|p.addresses|] == p.addresses;
    if x in p.addresses {
      var j := LastIndex(p.addresses, x);
      forall i: nat | IsLast(p.addresses, x, i) ensures i == j {
        OneLast(p.addresses, x, i, j);
      }
    }
  }

  lemma OneLast(addresses: seq<Address>, x: Address, i: nat, j: nat)
    requires IsLast(addresses, x, i) && IsLast(addresses, x, j)
    ensures i == j
  {
  }

  ghost function LastIndex(addresses: seq<Address>, x: Address): (j: nat)
    requires x in addresses
    ensures IsLast(addresses, x, j)
  {
    if addresses[|addresses| - 1] == x then |addresses| - 1 else LastIndex(addresses[..|addresses| - 1], x)
  }

  /** The proof that index `j` offers for `x`. */
  function ProofAt(x: Address, j: nat, p: Arguments): Proof
    requires j < |p.signatures| && j < |p.proofTimestamps|
  {
    Proof(x, p.signatures[j], p.proofTimestamps[j])
  }

  lemma {:induction false} BackedByIff(reporters: seq<Address>, p: Arguments, pack: Bytes, recover: Recover,
                                       proof: Proof)
    requires forall k :: 0 <= k < |reporters| ==> ProofFor(reporters[k], p, |p.addresses|).Ok?
    ensures proof in BackedBy(reporters, p, pack, recover)
       <==> && proof.signer in reporters && Backs(proof.signer, p, pack, recover)
            && ProofFor(proof.signer, p, |p.addresses|) == Ok(proof)
  {
    if reporters != [] {
      BackedByIff(reporters[1..], p, pack, recover, proof);
      assert proof.signer in reporters <==> proof.signer == reporters[0] || proof.signer in reporters[1..];
      if Backs(reporters[0], p, pack, recover) {
        BackingSigner(reporters[0], p, pack, recover);
      }
    }
  }

  lemma AcceptedLookups(st: State, members: seq<Address>, staked: bool, block: Block, sender: Address, p: Arguments,
                        recover: Recover)
    requires Distinct(members)
    requires Submit(st, Ok(members), staked, block, sender, p, recover).Ok?
    ensures var reporters := Ranked(members, st.reputationOf);
            forall k :: 0 <= k < |reporters| ==> ProofFor(reporters[k], p, |p.addresses|).Ok?
  {
    var reporters := Ranked(members, st.reputationOf);
    AdmittedOnTurn(st, members, staked, block, sender, p);
    ProofsInRange(reporters, 0, p, PackContent(ContentOf(p).value), sender, recover, Tally(st.reputationOf, [], false));
  }

  /** A proof is stored with an accepted report exactly if its signer is a registered node, it consists of the
      signature and the timestamp at the last index that names that node, and the node signed. */
  lemma StoredIff(st: State, members: seq<Address>, staked: bool, block: Block, sender: Address, p: Arguments,
                  recover: Recover, st': State, proof: Proof)
    requires Distinct(members)
    requires Submit(st, Ok(members), staked, block, sender, p, recover) == Ok(st')
    ensures ContentOf(p).Ok?
    ensures proof in ProofsAt(st', p.id)
       <==> && proof.signer in members
            && exists j: nat ::
                 && IsLast(p.addresses, proof.signer, j)
                 && Signed(proof.signer, j, p, PackContent(ContentOf(p).value), recover)
                 && proof == ProofAt(proof.signer, j, p)
  {
    AcceptedReport(st, members, staked, block, sender, p, recover, st');
    AcceptedLookups(st, members, staked, block, sender, p, recover);
    var reporters, pack := Ranked(members, st.reputationOf), PackContent(ContentOf(p).value);
    BackedByIff(reporters, p, pack, recover, proof);
    RankedIn(members, st.reputationOf, proof.signer);
    if proof.signer in reporters {
      BackingIs(proof, p, pack, recover);
    }
  }

  lemma BackingIs(proof: Proof, p: Arguments, pack: Bytes, recover: Recover)
    requires ProofFor(proof.signer, p, |p.addresses|).Ok?
    ensures Backs(proof.signer, p, pack, recover) && ProofFor(proof.signer, p, |p.addresses|) == Ok(proof)
       <==> exists j: nat ::
              && IsLast(p.addresses, proof.signer, j)
              && Signed(proof.signer, j, p, pack, recover)
              && proof == ProofAt(proof.signer, j, p)
  {
    BacksIff(proof.signer, p, pack, recover);
    LookedUp(proof.signer, p, |p.addresses|);
    assert p.addresses[..|p.addresses|] == p.addresses;
  }

  /** The stored content is read off the argument arrays index by index. */
  lemma ContentSpelled(p: Arguments, c: Content)
    requires ContentOf(p) == Ok(c)
    ensures |c.streams| == |p.streams| && |c.consumers| == |p.readConsumerAddresses|
    ensures |c.nodes| == |p.nodes| && |c.delegates| == |p.delegates|
    ensures forall i :: 0 <= i < |p.streams| ==>
              && i < |p.writeCaptureAmounts| && i < |p.writeBytes|
              && c.streams[i] == StreamEntry(p.streams[i], p.writeCaptureAmounts[i], p.writeBytes[i])
    ensures forall i :: 0 <= i < |p.readConsumerAddresses| ==>
              && i < |p.readCaptureAmounts| && i < |p.readBytes|
              && c.consumers[i] == ConsumerEntry(p.readConsumerAddresses[i], p.readCaptureAmounts[i], p.readBytes[i])
    ensures forall i :: 0 <= i < |p.nodes| ==>
              i < |p.nodeChanges| && c.nodes[i] == NodeEntry(p.nodes[i], p.nodeChanges[i])
  {
  }

  lemma DelegateSpelled(p: Arguments, c: Content, i: nat, j: nat)
    requires ContentOf(p) == Ok(c) && i < |p.delegates|
    ensures i < |p.delegateNodes| && |c.delegates| == |p.delegates|
    ensures c.delegates[i].id == p.delegates[i] && |c.delegates[i].nodes| == |p.delegateNodes[i]|
    ensures j < |p.delegateNodes[i]| ==>
              && i < |p.delegateNodeChanges| && j < |p.delegateNodeChanges[i]| && j < |c.delegates[i].nodes|
              && c.delegates[i].nodes[j] == NodeEntry(p.delegateNodes[i][j], p.delegateNodeChanges[i][j])
  {
    assert DelegateInRange(p, i);
  }
}
