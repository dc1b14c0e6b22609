/** The reputations after an accepted report, whoever sent a proof and whoever did not. */
module Reputation {
  import opened Acceptance
  import opened Consensus
  import opened Evm
  import opened Mappings
  import opened Ranking
  import opened ReportManager
  import opened Reports
  import opened Schedule
  import opened Sequences

  /** What a reporter with a good proof makes of the reputation `base`: 10 more for the sender, 1 more behind the
      sender, 5 less ahead of it. */
  function Gained(base: Uint256, isSender: bool, led: bool): int {
    if isSender then base + 10
    else if led then base + 1
    else if base >= 5 then base - 5 else 0
  }

  /** The reputation of `x`, whose rank is `rank`, when the loop has come to rank `i`. A good proof counts from what
      earlier resets left, and a reset after it wipes it out. */
  function ReputationOf(rep: Reputations, reporters: seq<Address>, rank: nat, i: nat, p: Arguments, pack: Bytes,
                        recover: Recover, sender: Address, x: Address): int
    requires i <= |reporters|
  {
    if rank < i && Backs(x, p, pack, recover) then
      if ResetIn(reporters, rank + 1, i, p, pack, recover, x) then 0
      else
        var base: Uint256 := if ResetIn(reporters, 0, rank, p, pack, recover, x) then 0 else Get(rep, x);
        Gained(base, x == sender, LedBefore(reporters, rank, p, pack, recover, sender))
    else if ResetIn(reporters, 0, i, p, pack, recover, x) then 0
    else Get(rep, x)
  }

  function ReputationAt(rep: Reputations, reporters: seq<Address>, i: nat, p: Arguments, pack: Bytes, recover: Recover,
                        sender: Address, x: Address): int
    requires i <= |reporters|
  {
    ReputationOf(rep, reporters, IndexOf(reporters, x), i, p, pack, recover, sender, x)
  }

  ghost predicate ReputationsAre(rep: Reputations, reporters: seq<Address>, i: nat, p: Arguments, pack: Bytes,
                                 recover: Recover, sender: Address, t: Tally)
    requires i <= |reporters|
  {
    && (t.led <==> LedBefore(reporters, i, p, pack, recover, sender))
    && forall x: Address :: Get(t.rep, x) == ReputationAt(rep, reporters, i, p, pack, recover, sender, x)
  }

  lemma RankOf(reporters: seq<Address>, i: nat, x: Address)
    requires Distinct(reporters) && i < |reporters|
    ensures IndexOf(reporters, x) == i <==> x == reporters[i]
    ensures x != reporters[i] ==> (IndexOf(reporters, x) < i + 1 <==> IndexOf(reporters, x) < i)
  {
    if IndexOf(reporters, x) < |reporters| {
      DistinctAt(reporters, IndexOf(reporters, x), i);
    }
  }

  /** A good proof at rank `i` counts for its own reporter and changes nothing for anybody else. */
  lemma StepBacked(rep: Reputations, reporters: seq<Address>, i: nat, p: Arguments, pack: Bytes, recover: Recover,
                   sender: Address, t: Tally, t': Tally, x: Address)
    requires Distinct(reporters) && i < |reporters| && Backs(reporters[i], p, pack, recover)
    requires t.led <==> LedBefore(reporters, i, p, pack, recover, sender)
    requires Get(t.rep, x) == ReputationAt(rep, reporters, i, p, pack, recover, sender, x)
    requires CountOne(reporters, i, p, pack, sender, recover, t) == Ok(t')
    ensures Get(t'.rep, x) == ReputationAt(rep, reporters, i + 1, p, pack, recover, sender, x)
  {
    RankOf(reporters, i, x);
    BackingSigner(reporters[i], p, pack, recover);
    if x == reporters[i] {
      assert !ResetIn(reporters, i + 1, i + 1, p, pack, recover, x);
      assert Get(t'.rep, x) == Gained(Get(t.rep, x), x == sender, t.led);
    } else {
      assert Get(t'.rep, x) == Get(t.rep, x);
    }
  }

  /** A bad proof at rank `i` wipes out whatever the address at its index had. */
  lemma StepBad(rep: Reputations, reporters: seq<Address>, i: nat, p: Arguments, pack: Bytes, recover: Recover,
                sender: Address, t: Tally, t': Tally, x: Address)
    requires Distinct(reporters) && i < |reporters| && !Backs(reporters[i], p, pack, recover)
    requires Get(t.rep, x) == ReputationAt(rep, reporters, i, p, pack, recover, sender, x)
    requires CountOne(reporters, i, p, pack, sender, recover, t) == Ok(t')
    ensures Get(t'.rep, x) == ReputationAt(rep, reporters, i + 1, p, pack, recover, sender, x)
  {
    RankOf(reporters, i, x);
    BadOne(reporters, i, p, pack, recover, sender, t, t', x);
    WipedOut(rep, reporters, IndexOf(reporters, x), i, p, pack, recover, sender, x);
  }

  lemma WipedOut(rep: Reputations, reporters: seq<Address>, rank: nat, i: nat, p: Arguments, pack: Bytes,
                 recover: Recover, sender: Address, x: Address)
    requires i < |reporters| && i < |p.addresses| && !Backs(reporters[i], p, pack, recover)
    requires rank == i ==> x == reporters[i]
    ensures ReputationOf(rep, reporters, rank, i + 1, p, pack, recover, sender, x)
         == if p.addresses[i] == x then 0 else ReputationOf(rep, reporters, rank, i, p, pack, recover, sender, x)
  {
    BadReset(reporters, 0, i, p, pack, recover, x);
    if rank < i {
      BadReset(reporters, rank + 1, i, p, pack, recover, x);
    }
  }

  lemma BadOne(reporters: seq<Address>, i: nat, p: Arguments, pack: Bytes, recover: Recover, sender: Address, t: Tally,
               t': Tally, x: Address)
    requires i < |reporters| && !Backs(reporters[i], p, pack, recover)
    requires CountOne(reporters, i, p, pack, sender, recover, t) == Ok(t')
    ensures i < |p.addresses| && Get(t'.rep, x) == if x == p.addresses[i] then 0 else Get(t.rep, x)
  {
  }

  lemma BadReset(reporters: seq<Address>, lo: nat, i: nat, p: Arguments, pack: Bytes, recover: Recover, x: Address)
    requires lo <= i < |reporters| && i < |p.addresses| && !Backs(reporters[i], p, pack, recover)
    ensures ResetIn(reporters, lo, i + 1, p, pack, recover, x)
       <==> ResetIn(reporters, lo, i, p, pack, recover, x) || p.addresses[i] == x
  {
  }

  lemma StepReputation(rep: Reputations, reporters: seq<Address>, i: nat, p: Arguments, pack: Bytes, recover: Recover,
                       sender: Address, t: Tally, t': Tally, x: Address)
    requires Distinct(reporters) && i < |reporters|
    requires t.led <==> LedBefore(reporters, i, p, pack, recover, sender)
    requires Get(t.rep, x) == ReputationAt(rep, reporters, i, p, pack, recover, sender, x)
    requires CountOne(reporters, i, p, pack, sender, recover, t) == Ok(t')
    ensures Get(t'.rep, x) == ReputationAt(rep, reporters, i + 1, p, pack, recover, sender, x)
  {
    if Backs(reporters[i], p, pack, recover) {
      StepBacked(rep, reporters, i, p, pack, recover, sender, t, t', x);
    } else {
      StepBad(rep, reporters, i, p, pack, recover, sender, t, t', x);
    }
  }

  lemma {:induction false} LoopReputations(rep: Reputations, reporters: seq<Address>, i: nat, p: Arguments, pack: Bytes,
                                           recover: Recover, sender: Address, t: Tally, t': Tally)
    requires Distinct(reporters) && i <= |reporters|
    requires ReputationsAre(rep, reporters, i, p, pack, recover, sender, t)
    requires CountProofs(reporters, i, p, pack, sender, recover, t) == Ok(t')
    ensures forall x: Address ::
              Get(t'.rep, x) == ReputationAt(rep, reporters, |reporters|, p, pack, recover, sender, x)
    decreases |reporters| - i
  {
    if i < |reporters| {
      var one := CountOne(reporters, i, p, pack, sender, recover, t).value;
      forall x: Address
        ensures Get(one.rep, x) == ReputationAt(rep, reporters, i + 1, p, pack, recover, sender, x)
      {
        StepReputation(rep, reporters, i, p, pack, recover, sender, t, one, x);
      }
      if Backs(reporters[i], p, pack, recover) {
        BackingSigner(reporters[i], p, pack, recover);
      }
      LoopReputations(rep, reporters, i + 1, p, pack, recover, sender, one, t');
    }
  }

  /** The reputation of every address after an accepted report. */
  lemma AcceptedReputations(st: State, members: seq<Address>, staked: bool, block: Block, sender: Address, p: Arguments,
                            recover: Recover, st': State)
    requires Distinct(members)
    requires Submit(st, Ok(members), staked, block, sender, p, recover) == Ok(st')
    ensures ContentOf(p).Ok?
    ensures var reporters, pack := Ranked(members, st.reputationOf), PackContent(ContentOf(p).value);
            forall x: Address :: Get(st'.reputationOf, x)
              == ReputationAt(st.reputationOf, reporters, |reporters|, p, pack, recover, sender, x)
  {
    var reporters, pack := Ranked(members, st.reputationOf), PackContent(ContentOf(p).value);
    AdmittedOnTurn(st, members, staked, block, sender, p);
    RankedDistinct(members, st.reputationOf);
    var t := Tally(st.reputationOf, [], false);
    LoopReputations(st.reputationOf, reporters, 0, p, pack, recover, sender, t,
                    CountProofs(reporters, 0, p, pack, sender, recover, t).value);
  }

  // ----- what the comments announce

  /** A good proof earns its author what it earns, a bad one costs its author everything, and nobody else moves. */
  function Announced(rep: Reputations, reporters: seq<Address>, p: Arguments, pack: Bytes, recover: Recover,
                     sender: Address, x: Address): int
  {
    if x !in reporters then Get(rep, x)
    else if !Backs(x, p, pack, recover) then 0
    else Gained(Get(rep, x), x == sender, LedBefore(reporters, IndexOf(reporters, x), p, pack, recover, sender))
  }

  /** Some bad proof hits `x`: the address at the index of its rank is `x`. */
  predicate Hit(reporters: seq<Address>, p: Arguments, pack: Bytes, recover: Recover, x: Address) {
    ResetIn(reporters, 0, |reporters|, p, pack, recover, x)
  }

  lemma {:induction false} ResetSplit(reporters: seq<Address>, mid: nat, hi: nat, p: Arguments, pack: Bytes,
                                      recover: Recover, x: Address)
    requires mid < hi <= |reporters| && Backs(reporters[mid], p, pack, recover)
    ensures ResetIn(reporters, 0, hi, p, pack, recover, x)
       <==> ResetIn(reporters, 0, mid, p, pack, recover, x) || ResetIn(reporters, mid + 1, hi, p, pack, recover, x)
  {
    if mid + 1 < hi {
      ResetSplit(reporters, mid, hi - 1, p, pack, recover, x);
    }
  }

  /** The condition under which `x` ends up with what is announced: nothing hits it if it is no reporter or has a good
      proof, something hits it if its proof is bad, or the difference does not show. */
  predicate TreatedAsAnnounced(rep: Reputations, reporters: seq<Address>, p: Arguments, pack: Bytes, recover: Recover,
                               sender: Address, x: Address)
  {
    var hit, had := Hit(reporters, p, pack, recover, x), Get(rep, x);
    if x !in reporters then !hit || had == 0
    else if !Backs(x, p, pack, recover) then hit || had == 0
    else
      var rank := IndexOf(reporters, x);
      || !hit
      || (x != sender && !LedBefore(reporters, rank, p, pack, recover, sender) && had <= 5)
      || (!ResetIn(reporters, rank + 1, |reporters|, p, pack, recover, x) && had == 0)
  }

  lemma AnnouncedIff(rep: Reputations, reporters: seq<Address>, p: Arguments, pack: Bytes, recover: Recover,
                     sender: Address, x: Address)
    ensures ReputationAt(rep, reporters, |reporters|, p, pack, recover, sender, x)
              == Announced(rep, reporters, p, pack, recover, sender, x)
       <==> TreatedAsAnnounced(rep, reporters, p, pack, recover, sender, x)
  {
    var rank := IndexOf(reporters, x);
    if rank < |reporters| && Backs(x, p, pack, recover) {
      ResetSplit(reporters, rank, |reporters|, p, pack, recover, x);
    }
  }

  /** An accepted report moves a reputation as announced exactly under that condition. */
  lemma AcceptedAsAnnouncedIff(st: State, members: seq<Address>, staked: bool, block: Block, sender: Address,
                               p: Arguments, recover: Recover, st': State, x: Address)
    requires Distinct(members)
    requires Submit(st, Ok(members), staked, block, sender, p, recover) == Ok(st')
    ensures ContentOf(p).Ok?
    ensures var reporters, pack := Ranked(members, st.reputationOf), PackContent(ContentOf(p).value);
            Get(st'.reputationOf, x) == Announced(st.reputationOf, reporters, p, pack, recover, sender, x)
            <==> TreatedAsAnnounced(st.reputationOf, reporters, p, pack, recover, sender, x)
  {
    AcceptedReputations(st, members, staked, block, sender, p, recover, st');
    AnnouncedIff(st.reputationOf, Ranked(members, st.reputationOf), p, PackContent(ContentOf(p).value), recover,
                 sender, x);
  }

  /** A reporter without a good proof loses its reputation exactly if it had none, or its address stands at the index
      of the rank of some reporter without a good proof. */
  lemma BadReporterIff(st: State, members: seq<Address>, staked: bool, block: Block, sender: Address, p: Arguments,
                       recover: Recover, st': State, x: Address)
    requires Distinct(members)
    requires Submit(st, Ok(members), staked, block, sender, p, recover) == Ok(st')
    ensures ContentOf(p).Ok?
    ensures var reporters, pack := Ranked(members, st.reputationOf), PackContent(ContentOf(p).value);
            x in reporters && !Backs(x, p, pack, recover) ==>
              (Get(st'.reputationOf, x) == 0 <==>
                 || Get(st.reputationOf, x) == 0
                 || exists k :: 0 <= k < |reporters| && k < |p.addresses| && p.addresses[k] == x
                                && !Backs(reporters[k], p, pack, recover))
  {
    AcceptedReputations(st, members, staked, block, sender, p, recover, st');
    var reporters, pack := Ranked(members, st.reputationOf), PackContent(ContentOf(p).value);
    ResetInIff(reporters, 0, |reporters|, p, pack, recover, x);
  }

  // ----- two nodes, one proof

  function TwoNodes(a: Address, b: Address, buffer: Uint256): State {
    State(buffer, 1, map[a := 7][b := 7], [], map[], map[])
  }

  /** `x` alone of the two nodes signs. */
  ghost predicate OneSigns(a: Address, b: Address, x: Address, signature: Bytes, recover: Recover) {
    && a != b && (x == a || x == b)
    && Verified(Proof(x, signature, 0), OneProof(x, signature), [], recover)
  }

  lemma RankedTwo(a: Address, b: Address, buffer: Uint256)
    ensures Ranked([a, b], TwoNodes(a, b, buffer).reputationOf) == [a, b]
  {
    var rep := TwoNodes(a, b, buffer).reputationOf;
    assert [a, b][1..] == [b] && Ranked([b], rep) == [b];
  }

  lemma CheckedTwo(a: Address, b: Address, x: Address, signature: Bytes, buffer: Uint256)
    requires a != b && (x == a || x == b)
    ensures var p := OneProof(x, signature);
            && Checked(TwoNodes(a, b, buffer), [a, b], true, Block(1, 1), p)
            && MeanOf(p.proofTimestamps) == Ok(0)
            && InRange(p) && OffersInRange([a, b], p)
            && ContentOf(p) == Ok(Content([], [], [], [])) && PackContent(Content([], [], [], [])) == []
  {
    assert Common([a, b], [x]) == {x};
    assert Total([0]) == 0;
  }

  /** With slots of length one it is the second node's turn, with slots of length two the first one's. */
  lemma TurnOfTwo(a: Address, b: Address, x: Address, signature: Bytes, buffer: Uint256)
    requires 1 <= buffer <= 2 && x == if buffer == 1 then b else a
    ensures InSlot([a, b], TwoNodes(a, b, buffer), Block(1, 1), x, OneProof(x, signature))
  {
    assert Total([0]) == 0;
    assert MeanOf([0]) == Ok(0);
  }

  lemma OneBacks(a: Address, b: Address, x: Address, signature: Bytes, recover: Recover)
    requires OneSigns(a, b, x, signature, recover)
    ensures forall y: Address :: y == a || y == b ==> (Backs(y, OneProof(x, signature), [], recover) <==> y == x)
  {
    ProofOfOne(x, signature, a);
    ProofOfOne(x, signature, b);
  }

  lemma HalfBacks(a: Address, b: Address, x: Address, p: Arguments, recover: Recover)
    requires a != b && (x == a || x == b)
    requires forall y: Address :: y == a || y == b ==> (Backs(y, p, [], recover) <==> y == x)
    ensures |BackedBy([a, b], p, [], recover)| == 1
  {
    assert [a, b][1..] == [b] && [b][1..] == [];
    assert BackedBy([], p, [], recover) == [];
    assert |BackedBy([b], p, [], recover)| == if x == b then 1 else 0;
  }

  lemma SecondHit(a: Address, b: Address, signature: Bytes, recover: Recover)
    requires OneSigns(a, b, b, signature, recover)
    ensures var rep, p := TwoNodes(a, b, 1).reputationOf, OneProof(b, signature);
            && ReputationAt(rep, [a, b], 2, p, [], recover, b, a) == 7
            && ReputationAt(rep, [a, b], 2, p, [], recover, b, b) == 10
  {
    var p := OneProof(b, signature);
    OneBacks(a, b, b, signature, recover);
    assert [a, b][1..] == [b];
    assert IndexOf([a, b], a) == 0 && IndexOf([a, b], b) == 1;
    assert !ResetIn([a, b], 0, 0, p, [], recover, a) && !ResetIn([a, b], 0, 1, p, [], recover, a);
    assert ResetIn([a, b], 0, 1, p, [], recover, b) && !ResetIn([a, b], 2, 2, p, [], recover, b);
  }

  /** The second-ranked node submits its own good proof, and the report is accepted. The first one, which sent none,
      keeps its 7; the honest sender's 7 are wiped out before its reward of 10. */
  lemma HonestReset(a: Address, b: Address, signature: Bytes, recover: Recover)
    requires OneSigns(a, b, b, signature, recover)
    ensures var result := Submit(TwoNodes(a, b, 1), Ok([a, b]), true, Block(1, 1), b, OneProof(b, signature), recover);
            result.Ok? && Get(result.value.reputationOf, a) == 7 && Get(result.value.reputationOf, b) == 10
  {
    SecondAccepted(a, b, signature, recover);
    var st, p := TwoNodes(a, b, 1), OneProof(b, signature);
    AcceptedReputations(st, [a, b], true, Block(1, 1), b, p, recover,
                        Submit(st, Ok([a, b]), true, Block(1, 1), b, p, recover).value);
    RankedTwo(a, b, 1);
    CheckedTwo(a, b, b, signature, 1);
    SecondHit(a, b, signature, recover);
  }

  lemma SecondAccepted(a: Address, b: Address, signature: Bytes, recover: Recover)
    requires OneSigns(a, b, b, signature, recover)
    ensures Submit(TwoNodes(a, b, 1), Ok([a, b]), true, Block(1, 1), b, OneProof(b, signature), recover).Ok?
  {
    var st, p := TwoNodes(a, b, 1), OneProof(b, signature);
    RankedTwo(a, b, 1);
    CheckedTwo(a, b, b, signature, 1);
    TurnOfTwo(a, b, b, signature, 1);
    SecondAgreed(a, b, signature, recover);
    SubmitIff(st, [a, b], true, Block(1, 1), b, p, recover);
  }

  lemma SecondAgreed(a: Address, b: Address, signature: Bytes, recover: Recover)
    requires OneSigns(a, b, b, signature, recover)
    ensures Agreed([a, b], TwoNodes(a, b, 1), b, OneProof(b, signature), recover)
  {
    var st, p := TwoNodes(a, b, 1), OneProof(b, signature);
    CheckedTwo(a, b, b, signature, 1);
    OneBacks(a, b, b, signature, recover);
    HalfBacks(a, b, b, p, recover);
    assert Countable(st.reputationOf, [a, b], 0, p, [], recover, b);
    assert Countable(st.reputationOf, [a, b], 1, p, [], recover, b);
  }

  /** The first-ranked node submits its own good proof: half of the nodes, all checks passed. The report reverts for
      want of an address at the index of the second rank. */
  lemma HalfNotEnough(a: Address, b: Address, signature: Bytes, recover: Recover)
    requires OneSigns(a, b, a, signature, recover)
    ensures var st, p := TwoNodes(a, b, 2), OneProof(a, signature);
            && Admit(st, Ok([a, b]), true, Block(1, 1), a, p).Ok?
            && 2 * |BackedBy([a, b], p, [], recover)| >= |[a, b]|
            && Submit(st, Ok([a, b]), true, Block(1, 1), a, p, recover).Revert?
  {
    var st, p := TwoNodes(a, b, 2), OneProof(a, signature);
    RankedTwo(a, b, 2);
    CheckedTwo(a, b, a, signature, 2);
    OneBacks(a, b, a, signature, recover);
    HalfBacks(a, b, a, p, recover);
    TurnOfTwo(a, b, a, signature, 2);
    AdmitIff(st, [a, b], true, Block(1, 1), a, p);
    SubmitIff(st, [a, b], true, Block(1, 1), a, p, recover);
    assert !Countable(st.reputationOf, [a, b], 1, p, [], recover, a);
  }
}
