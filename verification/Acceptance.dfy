/** Exactly which calls of `report` succeed, and what becomes of the reputations of those who sent no proof. */
module Acceptance {
  import opened Arithmetic
  import opened Consensus
  import opened Evm
  import opened Mappings
  import opened Ranking
  import opened ReportManager
  import opened Reports
  import opened Schedule
  import opened Sequences

  // ----- proof arrays of unequal length

  /** Looking up a reporter's proof goes out of range exactly if one of the addresses that name it has no
      signature or no timestamp at its index. */
  lemma {:induction false} ProofForIff(reporter: Address, p: Arguments, k: nat)
    requires k <= |p.addresses|
    ensures ProofFor(reporter, p, k).Ok? <==>
            forall j :: 0 <= j < k && p.addresses[j] == reporter ==> j < |p.signatures| && j < |p.proofTimestamps|
  {
    if k > 0 {
      ProofForIff(reporter, p, k - 1);
    }
  }

  /** Every address that names a reporter has its signature and its timestamp. */
  ghost predicate OffersInRange(reporters: seq<Address>, p: Arguments) {
    forall j :: 0 <= j < |p.addresses| && p.addresses[j] in reporters ==> j < |p.signatures| && j < |p.proofTimestamps|
  }

  lemma OffersInRangeIff(reporters: seq<Address>, p: Arguments)
    ensures OffersInRange(reporters, p) <==>
            forall k :: 0 <= k < |reporters| ==> ProofFor(reporters[k], p, |p.addresses|).Ok?
  {
    forall k | 0 <= k < |reporters|
      ensures ProofFor(reporters[k], p, |p.addresses|).Ok? <==>
              forall j :: 0 <= j < |p.addresses| && p.addresses[j] == reporters[k] ==>
                j < |p.signatures| && j < |p.proofTimestamps|
    {
      ProofForIff(reporters[k], p, |p.addresses|);
    }
  }

  // ----- the loop over the reporters

  /** A bad proof at a rank from `lo` up to, but not including, `hi` resets the reputation of `x`. */
  predicate ResetIn(reporters: seq<Address>, lo: nat, hi: nat, p: Arguments, pack: Bytes, recover: Recover, x: Address)
    requires lo <= hi <= |reporters|
  {
    && lo < hi
    && (|| ResetIn(reporters, lo, hi - 1, p, pack, recover, x)
        || (hi - 1 < |p.addresses| && p.addresses[hi - 1] == x && !Backs(reporters[hi - 1], p, pack, recover)))
  }

  lemma {:induction false} ResetInIff(reporters: seq<Address>, lo: nat, hi: nat, p: Arguments, pack: Bytes,
                                      recover: Recover, x: Address)
    requires lo <= hi <= |reporters|
    ensures ResetIn(reporters, lo, hi, p, pack, recover, x) <==>
            exists k :: lo <= k < hi && k < |p.addresses| && p.addresses[k] == x
                 && !Backs(reporters[k], p, pack, recover)
  {
    if lo < hi {
      ResetInIff(reporters, lo, hi - 1, p, pack, recover, x);
    }
  }

  /** The sender's own proof is verified at a rank before `i`. */
  predicate LedBefore(reporters: seq<Address>, i: nat, p: Arguments, pack: Bytes, recover: Recover, sender: Address)
    requires i <= |reporters|
  {
    && i > 0
    && (|| LedBefore(reporters, i - 1, p, pack, recover, sender)
        || (reporters[i - 1] == sender && Backs(sender, p, pack, recover)))
  }

  /** The reputation of the reporter at rank `i` can take what it gains. */
  predicate HasRoom(rep: Reputations, reporters: seq<Address>, i: nat, p: Arguments, pack: Bytes, recover: Recover,
                    sender: Address)
    requires i < |reporters|
  {
    var x := reporters[i];
    Backs(x, p, pack, recover) && !ResetIn(reporters, 0, i, p, pack, recover, x) ==>
      if x == sender then Get(rep, x) + 10 <= UINT256_MAX
      else LedBefore(reporters, i, p, pack, recover, sender) ==> Get(rep, x) + 1 <= UINT256_MAX
  }

  /** Rank `i` gets through the loop: the proof is good, or its rank is an index into `addresses`. */
  predicate Countable(rep: Reputations, reporters: seq<Address>, i: nat, p: Arguments, pack: Bytes, recover: Recover,
                      sender: Address)
    requires i < |reporters|
  {
    && (i < |p.addresses| || Backs(reporters[i], p, pack, recover))
    && HasRoom(rep, reporters, i, p, pack, recover, sender)
  }

  /** The tally before rank `i`: what is known of the reporters still to come. */
  ghost predicate TallyAt(rep: Reputations, reporters: seq<Address>, i: nat, p: Arguments, pack: Bytes,
                          recover: Recover, sender: Address, t: Tally)
    requires i <= |reporters|
  {
    && (t.led <==> LedBefore(reporters, i, p, pack, recover, sender))
    && forall j :: i <= j < |reporters| ==>
         Get(t.rep, reporters[j])
         == if ResetIn(reporters, 0, i, p, pack, recover, reporters[j]) then 0 else Get(rep, reporters[j])
  }

  lemma CountOneIff(rep: Reputations, reporters: seq<Address>, i: nat, p: Arguments, pack: Bytes, recover: Recover,
                    sender: Address, t: Tally)
    requires Distinct(reporters) && i < |reporters| && TallyAt(rep, reporters, i, p, pack, recover, sender, t)
    requires ProofFor(reporters[i], p, |p.addresses|).Ok?
    ensures CountOne(reporters, i, p, pack, sender, recover, t).Ok?
       <==> Countable(rep, reporters, i, p, pack, recover, sender)
    ensures CountOne(reporters, i, p, pack, sender, recover, t).Ok? ==>
              TallyAt(rep, reporters, i + 1, p, pack, recover, sender,
                      CountOne(reporters, i, p, pack, sender, recover, t).value)
  {
    if Backs(reporters[i], p, pack, recover) {
      BackingSigner(reporters[i], p, pack, recover);
    }
    forall j | i < j < |reporters| ensures reporters[j] != reporters[i] {
      DistinctAt(reporters, i, j);
    }
  }

  lemma {:induction false} CountIff(rep: Reputations, reporters: seq<Address>, i: nat, p: Arguments, pack: Bytes,
                                    recover: Recover, sender: Address, t: Tally)
    requires Distinct(reporters) && i <= |reporters| && TallyAt(rep, reporters, i, p, pack, recover, sender, t)
    requires forall k :: 0 <= k < |reporters| ==> ProofFor(reporters[k], p, |p.addresses|).Ok?
    ensures CountProofs(reporters, i, p, pack, sender, recover, t).Ok?
       <==> forall k :: i <= k < |reporters| ==> Countable(rep, reporters, k, p, pack, recover, sender)
    decreases |reporters| - i
  {
    if i < |reporters| {
      CountOneIff(rep, reporters, i, p, pack, recover, sender, t);
      var one := CountOne(reporters, i, p, pack, sender, recover, t);
      if one.Ok? {
        CountIff(rep, reporters, i + 1, p, pack, recover, sender, one.value);
      }
    }
  }

  // ----- the whole of `report`

  /** The contract's search decides in favour of `x` exactly if it is that reporter's turn and the end of the current
      cycle is a number that it can compute. */
  lemma CanReportIff(x: Address, list: seq<Address>, timestamps: seq<Uint256>, buffer: Uint256, now: Uint256)
    requires Distinct(list) && list != [] && MeanOf(timestamps).Ok?
    ensures var mean := MeanOf(timestamps).value;
            CanReport(x, list, timestamps, buffer, now) == Ok(true)
            <==> && buffer > 0 && now >= mean && x == list[(now - mean) / buffer % |list|]
                 && buffer * |list| <= UINT256_MAX && CycleEnd(mean, buffer * |list|, now) <= UINT256_MAX
  {
    if CanReport(x, list, timestamps, buffer, now).Ok? {
      OneReporterAtATime(list, timestamps, buffer, now, x);
    } else if buffer > 0 {
      MulMonotone(1, |list|, buffer);
    }
  }

  /** The checks that do not depend on the schedule. */
  ghost predicate Checked(st: State, members: seq<Address>, staked: bool, block: Block, p: Arguments) {
    && staked
    && !ReportAt(st, p.id).processed
    && LastHeight(st) < p.blockHeight <= block.number
    && 2 * |p.addresses| == |p.proofTimestamps| + |p.signatures|
    && members != [] && |members| * MATH_PRECISION <= UINT256_MAX
    && 2 * |Common(members, p.addresses)| >= |members|
  }

  /** It is the sender's turn, and the schedule is within the range of numbers. */
  ghost predicate InSlot(reporters: seq<Address>, st: State, block: Block, sender: Address, p: Arguments) {
    && OnTurn(reporters, st, block, sender, p)
    && st.reportTimeBuffer * |reporters| <= UINT256_MAX
    && CycleEnd(MeanOf(p.proofTimestamps).value, st.reportTimeBuffer * |reporters|,
                BlockTimestamp(st.testTimestamp, block).value) <= UINT256_MAX
  }

  lemma AdmitIff(st: State, members: seq<Address>, staked: bool, block: Block, sender: Address, p: Arguments)
    requires Distinct(members)
    ensures Admit(st, Ok(members), staked, block, sender, p).Ok?
       <==> Checked(st, members, staked, block, p) && InSlot(Ranked(members, st.reputationOf), st, block, sender, p)
  {
    AdmitSteps(st, members, staked, block, sender, p);
    QuorumIff(members, st.reputationOf, p.addresses);
    RankedSize(members, st.reputationOf);
    InSlotIff(Ranked(members, st.reputationOf), st, block, sender, p);
  }

  /** The schedule's part of `Admit`. */
  predicate SlotPasses(reporters: seq<Address>, st: State, block: Block, sender: Address, p: Arguments) {
    && MeanOf(p.proofTimestamps).Ok? && BlockTimestamp(st.testTimestamp, block).Ok?
    && CanReport(sender, reporters, p.proofTimestamps, st.reportTimeBuffer,
                 BlockTimestamp(st.testTimestamp, block).value)
         == Ok(true)
  }

  lemma AdmitSteps(st: State, members: seq<Address>, staked: bool, block: Block, sender: Address, p: Arguments)
    ensures Admit(st, Ok(members), staked, block, sender, p).Ok?
       <==> && staked && !ReportAt(st, p.id).processed && LastHeight(st) < p.blockHeight <= block.number
            && 2 * |p.addresses| == |p.proofTimestamps| + |p.signatures|
            && members != [] && QuorumIsMet(p.addresses, Ranked(members, st.reputationOf)) == Ok(true)
            && SlotPasses(Ranked(members, st.reputationOf), st, block, sender, p)
  {
  }

  lemma QuorumIff(members: seq<Address>, rep: Reputations, participants: seq<Address>)
    requires Distinct(members)
    ensures QuorumIsMet(participants, Ranked(members, rep)) == Ok(true)
       <==> members != [] && |members| * MATH_PRECISION <= UINT256_MAX
            && 2 * |Common(members, participants)| >= |members|
  {
    RankedSize(members, rep);
    QuorumOfMembers(members, rep, participants);
  }

  lemma InSlotIff(reporters: seq<Address>, st: State, block: Block, sender: Address, p: Arguments)
    requires Distinct(reporters)
    ensures reporters != [] ==>
              (SlotPasses(reporters, st, block, sender, p) <==> InSlot(reporters, st, block, sender, p))
  {
    if reporters != [] && MeanOf(p.proofTimestamps).Ok? && BlockTimestamp(st.testTimestamp, block).Ok? {
      CanReportIff(sender, reporters, p.proofTimestamps, st.reportTimeBuffer,
                   BlockTimestamp(st.testTimestamp, block).value);
    }
  }

  lemma RankedSize(members: seq<Address>, rep: Reputations)
    requires Distinct(members)
    ensures |Ranked(members, rep)| == |members| && Distinct(Ranked(members, rep))
  {
    RankedDistinct(members, rep);
    RankedPermutes(members, rep);
    assert |Ranked(members, rep)| == |multiset(Ranked(members, rep))|;
  }

  /** Half of the reporters have a verified proof, and each of the others can be passed over. */
  ghost predicate Agreed(reporters: seq<Address>, st: State, sender: Address, p: Arguments, recover: Recover) {
    && InRange(p)
    && OffersInRange(reporters, p)
    && var pack := PackContent(ContentOf(p).value);
       && (forall k :: 0 <= k < |reporters| ==> Countable(st.reputationOf, reporters, k, p, pack, recover, sender))
       && 2 * |BackedBy(reporters, p, pack, recover)| >= |reporters|
  }

  /** `report` succeeds exactly if the checks pass, it is the sender's turn, the arrays are long enough, no reporter
      is in the way of the loop, and half of them agree. */
  lemma SubmitIff(st: State, members: seq<Address>, staked: bool, block: Block, sender: Address, p: Arguments,
                  recover: Recover)
    requires Distinct(members)
    ensures Submit(st, Ok(members), staked, block, sender, p, recover).Ok?
       <==> && Checked(st, members, staked, block, p)
            && InSlot(Ranked(members, st.reputationOf), st, block, sender, p)
            && Agreed(Ranked(members, st.reputationOf), st, sender, p, recover)
  {
    AdmitIff(st, members, staked, block, sender, p);
    if Admit(st, Ok(members), staked, block, sender, p).Ok? {
      AdmittedOnTurn(st, members, staked, block, sender, p);
      RankedSize(members, st.reputationOf);
      AgreedIff(Ranked(members, st.reputationOf), st, sender, p, recover);
    }
  }

  lemma AgreedIff(reporters: seq<Address>, st: State, sender: Address, p: Arguments, recover: Recover)
    requires Distinct(reporters)
    ensures Agreed(reporters, st, sender, p, recover)
       <==> && ContentOf(p).Ok?
            && var tally := CountProofs(reporters, 0, p, PackContent(ContentOf(p).value), sender, recover,
                                        Tally(st.reputationOf, [], false));
               tally.Ok? && 2 * |tally.value.proofs| >= |reporters|
  {
    if InRange(p) {
      var pack, t := PackContent(ContentOf(p).value), Tally(st.reputationOf, [], false);
      OffersInRangeIff(reporters, p);
      if OffersInRange(reporters, p) {
        CountIff(st.reputationOf, reporters, 0, p, pack, recover, sender, t);
      }
      if CountProofs(reporters, 0, p, pack, sender, recover, t).Ok? {
        ProofsInRange(reporters, 0, p, pack, sender, recover, t);
        CountedAreBacking(reporters, 0, p, pack, sender, recover, t);
        assert reporters[0..] == reporters;
      }
    }
  }

  // ----- a report that is accepted

  const SLOT_STATE := State(1, 1, map[], [], map[], map[])

  /** An empty report at height 1 with one proof. */
  function OneProof(a: Address, signature: Bytes): Arguments {
    Arguments([], 1, [], [], [], [], [], [], [], [], [], [], [], 0, [a], [0], [signature])
  }

  lemma OneNodeInSlot(a: Address, signature: Bytes)
    ensures InSlot([a], SLOT_STATE, Block(1, 1), a, OneProof(a, signature))
  {
    assert Total([0]) == 0;
    assert MeanOf([0]) == Ok(0);
  }

  lemma ProofOfOne(a: Address, signature: Bytes, x: Address)
    ensures ProofFor(x, OneProof(a, signature), 1) == Ok(if x == a then Proof(a, signature, 0) else NO_PROOF)
  {
    assert ProofFor(x, OneProof(a, signature), 0) == Ok(NO_PROOF);
  }

  lemma OneNodeAgreed(a: Address, signature: Bytes, recover: Recover)
    requires Verified(Proof(a, signature, 0), OneProof(a, signature), [], recover)
    ensures Agreed([a], SLOT_STATE, a, OneProof(a, signature), recover)
  {
    var p := OneProof(a, signature);
    ProofOfOne(a, signature, a);
    assert Backs(a, p, [], recover);
    OneBacker(a, p, recover);
    assert ContentOf(p) == Ok(Content([], [], [], []));
    assert PackContent(Content([], [], [], [])) == [];
  }

  lemma OneBacker(a: Address, p: Arguments, recover: Recover)
    requires Backs(a, p, [], recover)
    ensures |BackedBy([a], p, [], recover)| == 1
  {
    assert [a][1..] == [];
    assert BackedBy([], p, [], recover) == [];
  }

  /** One node that signs is enough. */
  lemma OneNodeAccepted(a: Address, signature: Bytes, recover: Recover)
    requires Verified(Proof(a, signature, 0), OneProof(a, signature), [], recover)
    ensures Submit(SLOT_STATE, Ok([a]), true, Block(1, 1), a, OneProof(a, signature), recover).Ok?
  {
    assert Ranked([a], map[]) == [a];
    assert Common([a], [a]) == {a};
    assert Checked(SLOT_STATE, [a], true, Block(1, 1), OneProof(a, signature));
    OneNodeInSlot(a, signature);
    OneNodeAgreed(a, signature, recover);
    SubmitIff(SLOT_STATE, [a], true, Block(1, 1), a, OneProof(a, signature), recover);
  }

  /** Two timestamps and no signature for one address pass every check, and the loop then runs out of range. */
  lemma UnequalArraysPass(a: Address, recover: Recover)
    ensures var p := OneProof(a, []).(proofTimestamps := [0, 0], signatures := []);
            && Admit(SLOT_STATE, Ok([a]), true, Block(1, 1), a, p).Ok?
            && !Submit(SLOT_STATE, Ok([a]), true, Block(1, 1), a, p, recover).Ok?
  {
    var p := OneProof(a, []).(proofTimestamps := [0, 0], signatures := []);
    assert [0, 0][..1] == [0] && Total([0]) == 0 && Total([0, 0]) == 0;
    assert MeanOf([0, 0]) == Ok(0);
    assert Ranked([a], map[]) == [a];
    assert Common([a], [a]) == {a};
    AdmitIff(SLOT_STATE, [a], true, Block(1, 1), a, p);
    SubmitIff(SLOT_STATE, [a], true, Block(1, 1), a, p, recover);
    assert p.addresses[0] in [a];
  }
}
