/** LogStoreReportManager: accepting a report and marking it processed. */
module ReportManager {
  import opened Consensus
  import opened Evm
  import opened Mappings
  import opened Ranking
  import opened Reports
  import opened Schedule
  import opened Sequences

  datatype State = State(
    reportTimeBuffer: Uint256,
    testTimestamp: Uint256,
    reputationOf: Reputations,
    lastReportId: Bytes,
    reports: map<Bytes, Report>,
    reportProofs: map<Bytes, seq<Proof>>
  )

  function ReportAt(st: State, id: Bytes): Report {
    if id in st.reports then st.reports[id] else NO_REPORT
  }

  function ProofsAt(st: State, id: Bytes): seq<Proof> {
    if id in st.reportProofs then st.reportProofs[id] else []
  }

  function LastHeight(st: State): Uint256 {
    ReportAt(st, st.lastReportId).height
  }

  /** The checks before the loop over the proofs, given what the node manager says about its nodes and
      the sender. The result is the ranking they were made with. */
  function Admit(st: State, members: Outcome<seq<Address>>, staked: bool, block: Block, sender: Address,
                 p: Arguments): Outcome<seq<Address>> {
    var _ :- Require(staked, "error_stakeRequired");
    var _ :- Require(!ReportAt(st, p.id).processed, "error_reportAlreadyProcessed");
    var _ :- Require(LastHeight(st) < p.blockHeight <= block.number, "error_invalidReport");
    var _ :- Require(|p.addresses| * 3 == |p.addresses| + |p.proofTimestamps| + |p.signatures|, "error_invalidProofs");
    var nodes :- members;
    var reporters :- GetReporters(nodes, st.reputationOf);
    var quorum :- QuorumIsMet(p.addresses, reporters);
    var _ :- Require(quorum, "error_quorumNotMet");
    var eligible :- CanReportIn(sender, reporters, p.proofTimestamps, st.reportTimeBuffer, st.testTimestamp, block);
    var _ :- Require(eligible, "error_invalidReporter");
    Ok(reporters)
  }

  /** The quorum check has already multiplied the number of reporters without overflow. */
  lemma AdmittedSize(st: State, members: Outcome<seq<Address>>, staked: bool, block: Block, sender: Address,
                     p: Arguments)
    requires Admit(st, members, staked, block, sender, p).Ok?
    ensures |Admit(st, members, staked, block, sender, p).value| * MATH_PRECISION <= UINT256_MAX
  {
  }

  function Accept(st: State, p: Arguments, sender: Address, content: Content, tally: Tally): State {
    var report := Report(p.id, p.blockHeight, p.treasurySupplyChange, content, sender, false);
    st.(reputationOf := tally.rep,
        reports := st.reports[p.id := report],
        reportProofs := st.reportProofs[p.id := tally.proofs],
        lastReportId := p.id)
  }

  function Submit(st: State, members: Outcome<seq<Address>>, staked: bool, block: Block, sender: Address,
                  p: Arguments, recover: Recover): Outcome<State> {
    var reporters :- Admit(st, members, staked, block, sender, p);
    var content :- ContentOf(p);
    var tally :- CountProofs(reporters, 0, p, PackContent(content), sender, recover, Tally(st.reputationOf, [], false));
    var _ :- Require(2 * |tally.proofs| >= |reporters|, "error_consensusNotMet");
    Ok(Accept(st, p, sender, content, tally))
  }

  function MarkProcessed(st: State, id: Bytes): State {
    st.(reports := st.reports[id := ReportAt(st, id).(processed := true)])
  }

  // ----- what acceptance means

  /** The sender was the one reporter whose turn it was. */
  ghost predicate OnTurn(reporters: seq<Address>, st: State, block: Block, sender: Address, p: Arguments) {
    && MeanOf(p.proofTimestamps).Ok?
    && BlockTimestamp(st.testTimestamp, block).Ok?
    && reporters != []
    && st.reportTimeBuffer > 0
    && var mean := MeanOf(p.proofTimestamps).value;
       var now := BlockTimestamp(st.testTimestamp, block).value;
       now >= mean && sender == reporters[(now - mean) / st.reportTimeBuffer % |reporters|]
  }

  lemma AdmittedOnTurn(st: State, members: seq<Address>, staked: bool, block: Block, sender: Address, p: Arguments)
    requires Distinct(members) && Admit(st, Ok(members), staked, block, sender, p).Ok?
    ensures var reporters := Ranked(members, st.reputationOf);
            && Admit(st, Ok(members), staked, block, sender, p) == Ok(reporters)
            && staked && sender in reporters
            && 2 * Present(reporters, p.addresses) >= |reporters|
            && OnTurn(reporters, st, block, sender, p)
  {
    var reporters := Ranked(members, st.reputationOf);
    RankedDistinct(members, st.reputationOf);
    var now := BlockTimestamp(st.testTimestamp, block).value;
    OneReporterAtATime(reporters, p.proofTimestamps, st.reportTimeBuffer, now, sender);
  }

  /** Acceptance raises the height and never clears a processed flag. */
  lemma SubmitMovesForward(st: State, members: Outcome<seq<Address>>, staked: bool, block: Block, sender: Address,
                           p: Arguments, recover: Recover, st': State, id: Bytes)
    requires Submit(st, members, staked, block, sender, p, recover) == Ok(st')
    ensures LastHeight(st) < LastHeight(st') == p.blockHeight
    ensures ReportAt(st, id).processed ==> ReportAt(st', id).processed
  {
  }

  /** What the quorum check counts is the number of different members among the participants. */
  lemma QuorumOfMembers(members: seq<Address>, rep: Reputations, participants: seq<Address>)
    requires Distinct(members)
    ensures Present(Ranked(members, rep), participants) == |Common(members, participants)|
  {
    RankedDistinct(members, rep);
    PresentIsIntersection(Ranked(members, rep), participants);
    forall x: Address ensures x in Ranked(members, rep) <==> x in members {
      RankedIn(members, rep, x);
    }
    assert Common(Ranked(members, rep), participants) == Common(members, participants);
  }

  /** An accepted report was submitted in turn by a staked reporter; the proofs stored with it are exactly
      the verified ones, in rank order, by pairwise distinct registered nodes, at least half of all. */
  lemma AcceptedReport(st: State, members: seq<Address>, staked: bool, block: Block, sender: Address, p: Arguments,
                       recover: Recover, st': State)
    requires Distinct(members)
    requires Submit(st, Ok(members), staked, block, sender, p, recover) == Ok(st')
    ensures ContentOf(p).Ok?
    ensures var reporters := Ranked(members, st.reputationOf);
            var pack := PackContent(ContentOf(p).value);
            && staked && sender in members
            && OnTurn(reporters, st, block, sender, p)
            && 2 * |Common(members, p.addresses)| >= |members|
            && ProofsAt(st', p.id) == BackedBy(reporters, p, pack, recover)
            && Sound(ProofsAt(st', p.id), reporters, p, pack, recover)
            && 2 * |ProofsAt(st', p.id)| >= |members|
    ensures ReportAt(st', p.id)
         == Report(p.id, p.blockHeight, p.treasurySupplyChange, ContentOf(p).value, sender, false)
    ensures !ReportAt(st, p.id).processed && LastHeight(st) < LastHeight(st') == p.blockHeight <= block.number
  {
    AdmittedOnTurn(st, members, staked, block, sender, p);
    var reporters := Ranked(members, st.reputationOf);
    var pack := PackContent(ContentOf(p).value);
    RankedDistinct(members, st.reputationOf);
    RankedPermutes(members, st.reputationOf);
    assert |reporters| == |multiset(reporters)| == |members|;
    RankedIn(members, st.reputationOf, sender);
    QuorumOfMembers(members, st.reputationOf, p.addresses);
    CountedAreBacking(reporters, 0, p, pack, sender, recover, Tally(st.reputationOf, [], false));
    assert reporters[0..] == reporters;
    BackersSound(reporters, p, pack, recover);
  }

  ghost predicate Unanimous(reporters: seq<Address>, p: Arguments, recover: Recover) {
    && ContentOf(p).Ok?
    && forall k :: 0 <= k < |reporters| ==> Backs(reporters[k], p, PackContent(ContentOf(p).value), recover)
  }

  lemma UnanimousCount(st: State, members: seq<Address>, staked: bool, block: Block, sender: Address, p: Arguments,
                       recover: Recover, st': State)
    requires Distinct(members)
    requires Submit(st, Ok(members), staked, block, sender, p, recover) == Ok(st')
    requires Unanimous(Ranked(members, st.reputationOf), p, recover)
    ensures sender in Ranked(members, st.reputationOf)
    ensures forall x: Address :: Get(st'.reputationOf, x)
                 == AfterReport(Get(st.reputationOf, x), Ranked(members, st.reputationOf), sender, false, x)
  {
    var rep, reporters := st.reputationOf, Ranked(members, st.reputationOf);
    AdmittedOnTurn(st, members, staked, block, sender, p);
    RankedDistinct(members, rep);
    assert reporters[0..] == reporters;
    forall x: Address ensures Get(st'.reputationOf, x) == AfterReport(Get(rep, x), reporters, sender, false, x) {
      ReputationsAfter(reporters, 0, p, PackContent(ContentOf(p).value), sender, recover, Tally(rep, [], false), x);
    }
  }

  /** If every current reporter backs an accepted report, the sender gains 10, those ranked ahead of it lose
      5 (or what they have), those behind gain 1, and nobody else changes. */
  lemma UnanimousReputations(st: State, members: seq<Address>, staked: bool, block: Block, sender: Address,
                             p: Arguments, recover: Recover, st': State)
    requires Distinct(members)
    requires Submit(st, Ok(members), staked, block, sender, p, recover) == Ok(st')
    requires Unanimous(Ranked(members, st.reputationOf), p, recover)
    ensures var reporters := Ranked(members, st.reputationOf);
            && Get(st'.reputationOf, sender) == Get(st.reputationOf, sender) + 10
            && (forall x :: Before(reporters, x, sender) ==>
                  Get(st'.reputationOf, x)
                    == Get(st.reputationOf, x) - if Get(st.reputationOf, x) >= 5 then 5 else Get(st.reputationOf, x))
            && (forall x :: Before(reporters, sender, x) ==> Get(st'.reputationOf, x) == Get(st.reputationOf, x) + 1)
            && (forall x: Address :: x !in members ==> Get(st'.reputationOf, x) == Get(st.reputationOf, x))
  {
    var rep, reporters := st.reputationOf, Ranked(members, st.reputationOf);
    UnanimousCount(st, members, staked, block, sender, p, recover, st');
    RankedDistinct(members, rep);
    AfterReportByRank(rep, st'.reputationOf, reporters, sender);
    forall x: Address ensures x in members <==> x in reporters {
      RankedIn(members, rep, x);
    }
  }

  lemma AfterReportByRank(rep: Reputations, rep': Reputations, reporters: seq<Address>, sender: Address)
    requires Distinct(reporters) && sender in reporters
    requires forall x: Address :: Get(rep', x) == AfterReport(Get(rep, x), reporters, sender, false, x)
    ensures forall x :: Before(reporters, x, sender) ==>
              Get(rep', x) == Get(rep, x) - if Get(rep, x) >= 5 then 5 else Get(rep, x)
    ensures forall x :: Before(reporters, sender, x) ==> Get(rep', x) == Get(rep, x) + 1
  {
    forall x ensures Before(reporters, x, sender) ==> x in reporters && x != sender && !Before(reporters, sender, x) {
      BeforeIn(reporters, x, sender);
      if Before(reporters, x, sender) {
        BeforeOneWay(reporters, x, sender);
      }
    }
    forall x ensures Before(reporters, sender, x) ==> x in reporters && x != sender {
      BeforeIn(reporters, sender, x);
      BeforeIrreflexive(reporters, sender);
    }
  }

  /** And in the next ranking of the same nodes those behind the sender are still behind it, in the same order. */
  lemma UnanimousRanking(st: State, members: seq<Address>, staked: bool, block: Block, sender: Address, p: Arguments,
                         recover: Recover, st': State, x: Address, y: Address)
    requires Distinct(members)
    requires Submit(st, Ok(members), staked, block, sender, p, recover) == Ok(st')
    requires Unanimous(Ranked(members, st.reputationOf), p, recover)
    requires Before(Ranked(members, st.reputationOf), sender, x) && Before(Ranked(members, st.reputationOf), sender, y)
    ensures Before(Ranked(members, st'.reputationOf), sender, x)
    ensures x != y ==>
              (Before(Ranked(members, st'.reputationOf), x, y) <==> Before(Ranked(members, st.reputationOf), x, y))
  {
    UnanimousCount(st, members, staked, block, sender, p, recover, st');
    BeforeIn(Ranked(members, st.reputationOf), sender, x);
    BeforeIn(Ranked(members, st.reputationOf), sender, y);
    RankedIn(members, st.reputationOf, sender);
    RankedIn(members, st.reputationOf, x);
    RankedIn(members, st.reputationOf, y);
    OrderBehindSender(members, st.reputationOf, st'.reputationOf, sender, x, y);
  }

  /** Every reporter ranked beyond the number of submitted addresses must have a verified proof: with one
      address per proof, leaving out the lowest-ranked reporter makes the report revert, quorum or not. */
  lemma AcceptedNeedsTheTail(st: State, members: seq<Address>, staked: bool, block: Block, sender: Address,
                             p: Arguments, recover: Recover, k: nat)
    requires Distinct(members)
    requires Submit(st, Ok(members), staked, block, sender, p, recover).Ok?
    requires k >= |p.addresses| && k < |Ranked(members, st.reputationOf)|
    ensures Backs(Ranked(members, st.reputationOf)[k], p, PackContent(ContentOf(p).value), recover)
  {
    var reporters := Ranked(members, st.reputationOf);
    var pack := PackContent(ContentOf(p).value);
    AdmittedOnTurn(st, members, staked, block, sender, p);
    ProofsInRange(reporters, 0, p, pack, sender, recover, Tally(st.reputationOf, [], false));
    CountNeedsTheTail(reporters, 0, p, pack, sender, recover, Tally(st.reputationOf, [], false));
  }

  lemma {:induction false} ProofsInRange(reporters: seq<Address>, i: nat, p: Arguments, pack: Bytes, sender: Address,
                                         recover: Recover, t: Tally)
    requires i <= |reporters| && CountProofs(reporters, i, p, pack, sender, recover, t).Ok?
    ensures forall k :: i <= k < |reporters| ==> ProofFor(reporters[k], p, |p.addresses|).Ok?
    decreases |reporters| - i
  {
    if i < |reporters| {
      var t' := CountOne(reporters, i, p, pack, sender, recover, t).value;
      ProofsInRange(reporters, i + 1, p, pack, sender, recover, t');
    }
  }
}
