/** Which error a transaction fails with: the first check in the contract's order that does not hold. */
module Errors {
  import opened Evm
  import opened Mappings
  import opened NodeManager
  import opened Registry
  import opened Token

  import Consensus
  import Queries
  import Ranking
  import ReportManager
  import Reports
  import Schedule
  import Settlement
  import Stores

  lemma StakingErrors(f: Funds, self: Address, sender: Address, amount: Uint256)
    ensures amount == 0 ==> Stake(f, self, sender, amount) == Revert("error_insufficientStake")
    ensures amount > Get(f.ledger, sender) ==> Stake(f, self, sender, amount) == Revert("error_insufficientBalance")
    ensures amount > Get(f.node.balanceOf, sender) ==>
              Withdraw(f, self, sender, amount) == Revert("error_notEnoughStake")
    ensures amount > f.node.treasurySupply ==>
              TreasuryWithdraw(f, self, sender, amount) == Revert("error_notEnoughStake")
  {
  }

  lemma DelegatingErrors(st: State, sender: Address, amount: Uint256, node: Address)
    ensures amount == 0 ==>
              && Delegate(st, sender, amount, node) == Revert("error_insufficientDelegateAmount")
              && Undelegate(st, sender, amount, node) == Revert("error_insufficientDelegateAmount")
    ensures amount > 0 && At(st.list.nodes, node).lastSeen == 0 ==>
              && Delegate(st, sender, amount, node) == Revert("error_invalidNode")
              && Undelegate(st, sender, amount, node) == Revert("error_invalidNode")
  {
  }

  lemma RegistrationErrors(st: State, block: Block, sender: Address, metadata: Bytes)
    ensures st.requiresWhitelist && (sender !in st.whitelist || st.whitelist[sender] != Approved) ==>
              UpsertOwn(st, block, sender, metadata) == Revert("error_notApproved")
    ensures At(st.list.nodes, sender).lastSeen == 0 ==> RemoveNode(st, sender) == Revert("error_notFound")
  {
  }

  lemma EscrowErrors(stores: Stores.State, queries: Queries.State, ledger: Ledger, self: Address, parent: Address,
                     user: Address, known: bool, stream: Bytes, amount: Uint256)
    ensures !known ==>
              Stores.Stake(stores, ledger, self, user, known, stream, amount) == Revert("error_invalidStream")
    ensures known && amount == 0 ==>
              Stores.Stake(stores, ledger, self, user, known, stream, amount) == Revert("error_insufficientStake")
    ensures amount == 0 ==> Queries.Stake(queries, ledger, self, user, amount) == Revert("error_insufficientStake")
    ensures Get(stores.stores, stream) == 0 ==>
              Stores.Capture(stores, ledger, self, parent, parent, stream, amount) == Revert("error_invalidStreamId")
    ensures Get(queries.balanceOf, user) == 0 ==>
              Queries.Capture(queries, ledger, self, parent, parent, user, amount)
              == Revert("error_invalidConsumerAddress")
  {
  }

  lemma ProcessingErrors(w: Settlement.World, c: Settlement.Contracts, sender: Address, id: Bytes)
    ensures !IsStaked(w.node, sender) ==> Settlement.ProcessReport(w, c, sender, id) == Revert("error_stakeRequired")
    ensures IsStaked(w.node, sender) && ReportManager.ReportAt(w.reports, id).processed ==>
              Settlement.ProcessReport(w, c, sender, id) == Revert("error_reportAlreadyProcessed")
  {
  }

  /** What an unprocessed report may carry: a height beyond the last one and not in the future. */
  predicate HeightInRange(st: ReportManager.State, block: Block, p: Reports.Arguments) {
    ReportManager.LastHeight(st) < p.blockHeight <= block.number
  }

  predicate LengthsAddUp(p: Reports.Arguments) {
    2 * |p.addresses| == |p.proofTimestamps| + |p.signatures|
  }

  lemma AdmissionErrors(st: ReportManager.State, members: seq<Address>, staked: bool, block: Block, sender: Address,
                        p: Reports.Arguments)
    ensures var r := ReportManager.Admit(st, Ok(members), staked, block, sender, p);
            var processed := ReportManager.ReportAt(st, p.id).processed;
            if !staked then r == Revert("error_stakeRequired")
            else if processed then r == Revert("error_reportAlreadyProcessed")
            else if !HeightInRange(st, block, p) then r == Revert("error_invalidReport")
            else if !LengthsAddUp(p) then r == Revert("error_invalidProofs")
            else if members == [] then r.Revert?
            else
              var reporters := Ranking.Ranked(members, st.reputationOf);
              var quorum := Consensus.QuorumIsMet(p.addresses, reporters);
              var turn := Schedule.CanReportIn(sender, reporters, p.proofTimestamps, st.reportTimeBuffer,
                                               st.testTimestamp, block);
              && (quorum == Ok(false) ==> r == Revert("error_quorumNotMet"))
              && (quorum == Ok(true) && turn == Ok(false) ==> r == Revert("error_invalidReporter"))
  {
  }

  /** A report that passes all checks and whose loop runs through fails only for want of half of the reporters. */
  lemma ConsensusError(st: ReportManager.State, members: seq<Address>, staked: bool, block: Block, sender: Address,
                       p: Reports.Arguments, recover: Consensus.Recover)
    requires ReportManager.Admit(st, Ok(members), staked, block, sender, p).Ok? && Reports.ContentOf(p).Ok?
    ensures var reporters := ReportManager.Admit(st, Ok(members), staked, block, sender, p).value;
            var tally := Consensus.CountProofs(reporters, 0, p, Reports.PackContent(Reports.ContentOf(p).value), sender,
                                               recover, Consensus.Tally(st.reputationOf, [], false));
            tally.Ok? && 2 * |tally.value.proofs| < |reporters| ==>
              ReportManager.Submit(st, Ok(members), staked, block, sender, p, recover)
              == Revert("error_consensusNotMet")
  {
  }
}
