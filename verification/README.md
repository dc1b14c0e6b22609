# Verified model of the Log Store settlement protocol

This project models what the Log Store contracts and their clients do to settle the cost of storing and
querying data, and proves what the protocol keeps in every run.

Nodes join a registry and are staked with tokens by their delegates. Users stake tokens on streams
(`LogStoreManager`), consumers for queries (`LogStoreQueryManager`). Off chain the nodes agree on a report of what
was stored and queried; one of them, in turn, submits it with the others' signatures (`LogStoreReportManager`).
Processing an accepted report captures the fees from both escrows and adjusts stakes, delegations and treasury
(`LogStoreNodeManager`). The TypeScript packages write the report so that both sides hash the same bytes, wait for
the index to catch up with transactions, and page through query results.

## How it is built

- **Steps.** Each contract call is a function from storage to an `Outcome`: a new storage, or a revert with its
  reason. Arithmetic is Solidity 0.8's: 256-bit, checked, with the unchecked casts written out. Storage is finite
  maps in which an unwritten word reads zero.
- **Contracts.** `Contracts` holds the contracts as classes whose methods update their fields in the order in which
  the originals do, loops included. Each method is proved equal to its step. `Chain` dispatches transactions
  to them and undoes the writes of those that revert; `ExecuteAll` therefore ends where `Protocol.Run` ends.
- **Runs.** `Protocol` defines a run as any sequence of transactions, `Runs` states the theorems about all of them.
  A run starts from the deployed contracts with any distribution of tokens among outside accounts. Contracts do not
  send transactions, tokens reach a contract only through its own functions, blocks have positive number and time,
  and the owner does not register the zero address.
- **Reference forms.** The node list is measured against a plain sequence, the bubble sort against an insertion
  ranking that is proved unique, the slot search against a division and a remainder, the rebuilt bytes against those
  of the serializer, the gates against a state machine whose steps are the pieces of code between two awaits, and
  the cursor loop against the sorted collection.
- **Spelled out.** That a method equals its step, and that the steps keep an invariant, does not yet say what a step does.
  So each operation also has statements in plain terms that do not go through its step's own helpers: which account moves
  by which amount, which byte stands where, which index is read, at which second whose turn it is.
- **Files.** `Arithmetic`, `Evm`, `Mappings`, `Sequences`, `Token` are the ground. `Stores`, `Queries`,
  `Registry`, `NodeManager`, `Ranking`, `Schedule`, `HexStrings`, `Text`, `Reports`, `Consensus`, `ReportManager`,
  `Settlement` follow the contracts. `Reindexing`, `Fees`, `Acceptance`, `Reputation` and `Processing` say exactly when
  single promises of theirs hold. `Clock`, `Proofs`, `Packing`, `Spelling`, `Effects`, `Transactions` and `Errors` spell
  out what the steps do. `Protocol`, `Runs`, `Positions`, `Payouts`, `Permissions`, `Contracts`, `Chain` put them together.
  `Serializer`, `Agreement`, `Indexing`, `SynchronizedClient`, `Pagination` are the TypeScript side.

`dafny verify dfyconfig.toml` checks everything.

## Where the code does not do what it says

The model follows the code. In these places its comments or names suggest something else:

- `_removeNode` announces that the nodes behind the removed one get a lower index (NodeManager.sol:358-364). The
  removed node is a storage reference that was just deleted, so the loop visits nothing. Indices are positions as long
  as only last nodes are removed, and not otherwise (`Positions.IndicesArePositionsIff`, `Positions.StaleIndex`).
  Reading the successor before the deletion would have been enough (`Reindexing.ReindexRepairs`).
- Fees are announced as proportional to stake (StoreManager.sol:96-100), but each turn of the loop takes an integer
  quotient, and a staker has as many turns as the list has entries for it. `Fees.ProportionalIff` says exactly when
  the fee is proportional all the same, `Fees.NothingPaid` shows that nobody may pay, `Fees.ChargedTwice` that one staker
  pays too much and another with the same stake nothing.
- A finished stakeholder is to be removed from the list (StoreManager.sol:111-118). The loop pushes that stakeholder
  once for every other entry instead. `Fees.ListIff` says when the list is right after a capture,
  `Fees.RemainingStakerVanishes` shows how it goes wrong. All results about captures hold for any contents of the list.
- A bad proof is to reset its author's reputation (ReportManager.sol:278-279). What is reset is the address at the
  index of the reporter's rank, and the report reverts if there is none. `Reputation.AcceptedReputations` gives the
  outcome of every accepted report, `Reputation.AcceptedAsAnnouncedIff` says when it is the announced one, and
  `Reputation.HonestReset` shows an honest sender being reset.
- A quorum of half is not enough when the lowest-ranked reporters are missing (`ReportManager.AcceptedNeedsTheTail`,
  `Reputation.HalfNotEnough`). What is enough is `Acceptance.SubmitIff`.
- The check on the proof arrays (ReportManager.sol:167-170) compares sums only. Unequal lengths pass, and fail later
  exactly if an address that names a reporter lacks its signature or timestamp (`Acceptance.ProofForIff`,
  `Acceptance.UnequalArraysPass`).
- `getReporters` reverts when there is no node (ReportManager.sol:131), and with it `report` (`Acceptance.AdmitIff`).
- Processing an id that no report has marks it processed (NodeManager.sol:172-174), and such an id can never be
  reported (`Runs.UnknownProcessedIff`, `Runs.UnknownIdBlocked`).
- The owner can register the zero address, which loses the list (`Registry.UpsertKeepsListIff`,
  `Registry.ZeroAddressLosesList`).
- Removing a node forgets its stake but not what was delegated to it, and does not revoke its permission. A delegate can
  get back no more than the stake recorded since the node came back (`Runs.Redeemable`, `Payouts.DelegationLocked`); who
  keeps the permission is `Permissions.PermittedIff`.
- A report can be accepted that nobody can process, for it may charge streams without stake
  (`Processing.EmptyStreamBlocks`, `Processing.ProcessIff`).
- A failed poll ends the polling loop with gates still stored, and as long as any gate is stored no query starts a new
  one (SynchronizedGraphQLClient.ts:76-82, 87-106). Polling resumes with the first query after all stored gates have
  timed out (`Indexing.StepAttendedIff`, `Indexing.StepReattendsIff`, `Indexing.StrandedWhileWaiting`).
- A query starts a polling loop only if there is none, it seems (SynchronizedGraphQLClient.ts:77-82), but what is asked
  is whether gates are stored. A loop that has outlived its gates gets company (`Indexing.SecondLoopIff`,
  `Indexing.TwoLoops`).
- An item with the empty id is never fetched (GraphQLClient.ts:84-87), and pages of size zero end in a TypeError
  (`Pagination.WholeCollection`, `Pagination.FetchPaginatedResults`).

## Model

| member | source | states |
|---|---|---|
| `Runs.SupplyGapIsOverflow` | packages/contracts/src/NodeManager.sol:140-304 | After every run of admissible transactions, the node manager's `totalSupply` minus the tokens it holds is exactly the sum of all capture overflows |
| `Runs.EscrowsSolvent` | packages/contracts/src/StoreManager.sol:66-160 | After every run each escrow holds exactly the tokens it owes; its `totalSupply` falls short of that by exactly the capture overflows less the supply overflows, so it is equal until the first `CaptureOverflow`, and no `SupplyOverflow` comes before one |
| `Runs.StoreBooksBalance` | packages/contracts/src/StoreManager.sol:82-110 | After every run a user's `balanceOf` is the sum of its stakes over all streams, and no stream claims more than its stakers hold in it |
| `Runs.CaptureReachable` | packages/contracts/src/StoreManager.sol:66-138 | In every reachable state the "balances are off" clamps are dead, and a capture succeeds iff the stream has stake and the receiver can be credited |
| `Runs.SingleStakerExact` | packages/contracts/src/StoreManager.sol:95-122 | A stream that only ever had one staker is backed to the token after any run, whatever was captured from it |
| `Runs.ListRefinesSequence` | packages/contracts/src/NodeManager.sol:311-399 | After every run `nodeAddresses` returns the registered nodes once each in the order of registration, `prev` leads back through the same nodes, `startBlockNumber` is 0 iff there are none, stored indices are no less than positions |
| `Positions.IndicesArePositionsIff` | packages/contracts/src/NodeManager.sol:346-364 | Stored indices are positions after every prefix of a run iff each successful removal in it is of the node that is last at that time |
| `Positions.StepIndexedIff` | packages/contracts/src/NodeManager.sol:311-372 | From a list in order, a successful transaction of any kind leaves a stale index iff it removes a node that is not the last |
| `Positions.StaleIndex` | packages/contracts/src/NodeManager.sol:336-372 | The concrete run: register two nodes, remove the first; the one left is at position 0 with index 1 |
| `Runs.StakedMayPublish` | packages/contracts/src/NodeManager.sol:374-407 | After every run, removals and reports included, a node that `isStaked` accepts holds the publish permission |
| `Permissions.PermittedIff` | packages/contracts/src/NodeManager.sol:336-380 | After every run the permitted are exactly the staked nodes and those that were removed while permitted and whose stake nobody has set since |
| `Runs.LedgerAddsUp` | packages/contracts/src/NodeManager.sol:254-304 | On runs without report processing, balances, delegations and treasury add up to `totalSupply`; a node's stake is covered by its delegations, exactly if the node was never removed |
| `Runs.Redeemable` | packages/contracts/src/NodeManager.sol:278-289 | On such runs an account can undelegate an amount iff it is positive, delegated, within the node's recorded stake, and the node is registered; if the node was never removed the recorded stake is no obstacle |
| `Runs.StuckAfterReturn` | packages/contracts/src/NodeManager.sol:311-372 | Once a node is removed and registered again, what was delegated to it before is still recorded and no amount of it can be undelegated |
| `Payouts.DelegationLocked` | packages/contracts/src/NodeManager.sol:278-289 | The concrete run: register, delegate one token, remove, register; the token is recorded as delegated and no amount can be undelegated |
| `Payouts.WithdrawIff` | packages/contracts/src/NodeManager.sol:296-304 | After every run an account can withdraw an amount iff it is within its balance, the recorded supply less all capture overflows covers it, and its own tokens do not overflow |
| `Payouts.BalancesRedeemable` | packages/contracts/src/NodeManager.sol:296-304 | While no report was processed, every balance can be withdrawn (if its owner's tokens do not overflow) |
| `Payouts.DelegationsRedeemable` | packages/contracts/src/NodeManager.sol:306-309 | While no report was processed, every delegation can be undelegated and withdrawn by the account that made it, as far as the node's recorded stake goes, and that account is paid |
| `Runs.LedgerDrift` | packages/contracts/src/NodeManager.sol:171-229 | On all runs the sum of balances, delegations and treasury differs from `totalSupply` by exactly what the processed reports moved on one side only: changes and clamped shortfalls less fees |
| `Runs.ReportsMoveForward` | packages/contracts/src/ReportManager.sol:165-166 | Along every run accepted heights strictly increase, a processed report stays processed, and no report is processed twice |
| `Runs.UnknownProcessedIff` | packages/contracts/src/NodeManager.sol:171-231 | An id that no report has can be processed by exactly the staked accounts, and is marked processed thereby |
| `Runs.ProcessedNeverAccepted` | packages/contracts/src/ReportManager.sol:164-166 | Once an id is processed, no report with it is accepted along any run |
| `Runs.UnknownIdBlocked` | packages/contracts/src/NodeManager.sol:171-174 | Hence any staked account can process an unknown id and no run after that accepts a report with it |
| `Runs.AcceptedInRun` | packages/contracts/src/ReportManager.sol:145-302 | A report accepted after any run comes from the staked node whose turn it is; its stored proofs are exactly the verified ones, in rank order, by distinct registered nodes, at least half of all |
| `Runs.JoinThenLeave` | packages/contracts/src/NodeManager.sol:242-252 | A fresh account that joins and leaves finds every storage slot of node manager and token as it was: ledger, permissions, list |
| `Protocol.StepValid` | packages/contracts/src/NodeManager.sol:132-309 | Every successful transaction of any kind keeps the invariant: solvency of all three contracts, permissions in line, list represents its sequence |
| `Protocol.RunValid` | packages/contracts/src/NodeManager.sol:132-309 | Every run keeps it, reverted transactions included |
| `Protocol.InitialValid` | packages/contracts/src/NodeManager.sol:83-115 | The invariant holds after deployment, with no node registered |
| `Protocol.NodeTxMoves` | packages/contracts/src/NodeManager.sol:132-309 | Every transaction on the node manager keeps the difference between accounts and supply and between supply and tokens, touches two token accounts only, moves the list as the sequence moves, keeps exact stakes exact |
| `Chain.Deployment.constructor` | packages/contracts/src/NodeManager.sol:83-115 | Deployment reaches an initial state of the protocol, with the slot length and the test time stored scaled |
| `Chain.Deployment.Execute` | packages/contracts/src/ReportManager.sol:145-302 | One transaction on the contracts as objects has the effect of one protocol step, and none if it reverts |
| `Chain.Deployment.ExecuteAll` | packages/contracts/src/NodeManager.sol:132-309 | Executing transactions on the objects ends in the state `Protocol.Run` describes, so all run theorems apply to them |
| `Registry.UpsertRepresents` | packages/contracts/src/NodeManager.sol:311-334 | Upserting a node appends it to the sequence, or leaves the sequence alone if it is registered |
| `Registry.UpsertKeepsListIff` | packages/contracts/src/NodeManager.sol:311-334 | The list survives an upsert iff the address is not zero and the block has a number and a time: the code itself lets the owner register the zero address and lose the list |
| `Registry.ZeroAddressLosesList` | packages/contracts/src/NodeManager.sol:315-327 | The concrete input: the zero address registered first |
| `Registry.RemoveRepresents` | packages/contracts/src/NodeManager.sol:336-372 | Removing takes exactly that node out of the sequence, wherever it stands; an unknown node makes it revert |
| `Registry.StakeRepresents` | packages/contracts/src/NodeManager.sol:196-206 | Writing any stake leaves the sequence alone |
| `Registry.NodeAddressesInOrder` | packages/contracts/src/NodeManager.sol:382-399 | `nodeAddresses` returns the sequence and never leaves its array |
| `Registry.WalkBackMirrors` | packages/contracts/src/NodeManager.sol:346-351 | Following `prev` from any node visits its predecessors in reverse |
| `Registry.RepresentsUnique` | packages/contracts/src/NodeManager.sol:382-399 | A list represents one sequence only |
| `Registry.AppendThenRemove` | packages/contracts/src/NodeManager.sol:311-372 | Registering an unknown node and removing it again restores every list field |
| `Reindexing.UpsertIndexed` | packages/contracts/src/NodeManager.sol:311-334 | No upsert spoils indices that are positions |
| `Reindexing.RemoveIndexedIff` | packages/contracts/src/NodeManager.sol:336-372 | After a removal they still are positions iff the removed node was the tail |
| `Reindexing.ReindexRepairs` | packages/contracts/src/NodeManager.sol:358-364 | Started from the successor read before the deletion, the loop would visit exactly the nodes behind, never underflow, and make every index a position |
| `Contracts.LogStoreNodeManager.UpsertNode` | packages/contracts/src/NodeManager.sol:311-334 | The field updates of `_upsertNode` carry out the step that the list lemmas are about, revert included |
| `Contracts.LogStoreNodeManager.Bypass` | packages/contracts/src/NodeManager.sol:340-345 | Pointing the neighbours past a node, write by write |
| `Contracts.LogStoreNodeManager.Reindex` | packages/contracts/src/NodeManager.sol:358-364 | The loop counts down the index of every node along `next`, reverting at an index of zero |
| `Contracts.LogStoreNodeManager.RemoveNode` | packages/contracts/src/NodeManager.sol:336-372 | The field updates of `_removeNode`, with the deletion before the successor is read and the loop that follows, carry out the removal step |
| `Contracts.LogStoreNodeManager.NodeAddresses` | packages/contracts/src/NodeManager.sol:382-399 | The loop fills a fresh array with what a walk along `next` visits, or reverts where the walk outgrows `totalNodes` |
| `NodeManager.StakeKeeps` | packages/contracts/src/NodeManager.sol:254-263 | Staking keeps the books balanced and the supply in step with the tokens, and moves only the two token accounts concerned |
| `NodeManager.WithdrawKeeps` | packages/contracts/src/NodeManager.sol:296-304 | Withdrawing keeps the books balanced and the supply in step with the tokens, and moves only the two token accounts concerned |
| `NodeManager.TreasuryWithdrawKeeps` | packages/contracts/src/NodeManager.sol:140-148 | A treasury withdrawal keeps the books balanced and the supply in step with the tokens, and moves only the two token accounts concerned |
| `NodeManager.DelegateKeeps` | packages/contracts/src/NodeManager.sol:265-276 | Delegating keeps the books, the permissions, the cover of every stake and the exactness of every exact stake |
| `NodeManager.UndelegateKeeps` | packages/contracts/src/NodeManager.sol:278-289 | Undelegating keeps the books, the permissions, the cover of every stake and the exactness of every exact stake |
| `NodeManager.UpsertKeeps` | packages/contracts/src/NodeManager.sol:311-334 | Upserting changes nobody's stake and nothing in the books |
| `NodeManager.RemoveKeeps` | packages/contracts/src/NodeManager.sol:336-372 | Removing forgets the stake of that node only and changes nothing in the books |
| `Effects.StakeEffect` | packages/contracts/src/NodeManager.sol:254-263 | Staking succeeds iff the amount is positive, the sender has it, and nothing overflows; it credits the sender and nobody else |
| `Effects.WithdrawEffect` | packages/contracts/src/NodeManager.sol:296-304 | Withdrawing succeeds iff the amount is within balance, supply and the contract's tokens; it debits the sender and nobody else |
| `Effects.TreasuryEffect` | packages/contracts/src/NodeManager.sol:140-148 | A treasury withdrawal pays its caller out of treasury and supply, within both, and touches no account |
| `Effects.DelegateEffect` | packages/contracts/src/NodeManager.sol:265-276 | Delegating succeeds iff the node is registered and the balance suffices; it moves the amount from the sender's balance to its delegation to that node and to that node's stake, and sets that node's permission, and nothing else |
| `Effects.UndelegateEffect` | packages/contracts/src/NodeManager.sol:278-289 | Undelegating succeeds iff the node is registered and delegation and stake suffice; it moves the amount back to the sender's balance, and nothing else |
| `Effects.StakeAndDelegateEffect` | packages/contracts/src/NodeManager.sol:291-294 | In one transaction the sender's tokens become its delegation; no balance moves |
| `Effects.UndelegateWithdrawEffect` | packages/contracts/src/NodeManager.sol:306-309 | In one transaction the sender's delegation becomes its tokens; no balance moves |
| `Effects.JoinEffect` | packages/contracts/src/NodeManager.sol:242-246 | Joining succeeds iff the sender may register and its tokens suffice; it registers the sender and makes its tokens a delegation to itself |
| `Effects.LeaveEffect` | packages/contracts/src/NodeManager.sol:248-252 | Leaving pays the sender its delegation to itself and its balance, zeroes both, erases its record, and touches no other account |
| `Effects.UpsertEffect` | packages/contracts/src/NodeManager.sol:311-334 | An upsert stores metadata and time, sets the index of a new node behind others to the number of nodes, keeps its stake, and leaves every other record but for the links |
| `Effects.SecondUpsert` | packages/contracts/src/NodeManager.sol:311-334 | A registered node that is upserted again keeps its place and stores the new metadata and time, nothing else |
| `Effects.RemoveEffect` | packages/contracts/src/NodeManager.sol:336-372 | A removal succeeds iff the node is registered; it blanks that record and leaves every other but for the links |
| `Transactions.MembershipEffect` | packages/contracts/src/NodeManager.sol:132-168 | Every membership transaction, exactly when it succeeds and what it changes: owner only for others' records and the whitelist, approval needed while the whitelist is required |
| `Transactions.StakeTx` | packages/contracts/src/NodeManager.sol:254-263 | The transaction stakes for its sender |
| `Transactions.WithdrawTx` | packages/contracts/src/NodeManager.sol:296-304 | The transaction withdraws for its sender |
| `Transactions.TreasuryTx` | packages/contracts/src/NodeManager.sol:140-148 | The transaction succeeds for the owner only |
| `Transactions.DelegationTx` | packages/contracts/src/NodeManager.sol:265-289 | Delegating and undelegating for the sender, to and from the node named |
| `Transactions.StakeDelegateTx` | packages/contracts/src/NodeManager.sol:291-294 | Staking and delegating for the sender, to the node named |
| `Transactions.UndelegateWithdrawTx` | packages/contracts/src/NodeManager.sol:306-309 | Undelegating and withdrawing for the sender, from the node named |
| `Transactions.StakeStoreTx` | packages/contracts/src/StoreManager.sol:140-158 | Staking on a stream succeeds iff the stream exists, the amount is positive, the sender has it, and nothing overflows |
| `Transactions.StakeStoreEffect` | packages/contracts/src/StoreManager.sol:145-158 | It moves the sender's stake in that stream, its balance, the stream's stake and the supply by the amount, lists the sender if it had no stake there, and nothing else |
| `Transactions.StakeQueryTx` | packages/contracts/src/QueryManager.sol:80-89 | Staking for queries credits the sender and no other consumer; exactly when it succeeds |
| `Transactions.CaptureStreamEffect` | packages/contracts/src/StoreManager.sol:66-138 | A capture takes the amount or all there is off the stream, pays it to the node manager, and charges every staker by its turns on the list |
| `Transactions.CaptureQueryEffect` | packages/contracts/src/QueryManager.sol:54-78 | A capture takes the amount or all there is off that consumer and no other, and pays it to the node manager |
| `Transactions.OnlyParentCaptures` | packages/contracts/src/StoreManager.sol:66-66 | Nobody but the node manager captures, from either escrow |
| `Transactions.SetBufferTx` | packages/contracts/src/ReportManager.sol:107-109 | The owner alone sets the slot length, scaled by ten billion |
| `Transactions.SubmitTx` | packages/contracts/src/ReportManager.sol:145-164 | A report is submitted against the current node list and the sender's current stake and changes the report manager only |
| `Transactions.MarkedOnly` | packages/contracts/src/ReportManager.sol:140-142 | Processing sets one flag and leaves every report's content alone |
| `Errors.StakingErrors` | packages/contracts/src/NodeManager.sol:140-148 | Which error staking, withdrawing and the treasury fail with |
| `Errors.DelegatingErrors` | packages/contracts/src/NodeManager.sol:265-280 | Which error delegating and undelegating fail with, the amount being checked first |
| `Errors.RegistrationErrors` | packages/contracts/src/NodeManager.sol:53-56 | Which error registering without approval and removing the unknown fail with |
| `Errors.EscrowErrors` | packages/contracts/src/StoreManager.sol:66-144 | Which error staking in and capturing from the escrows fail with |
| `Errors.ProcessingErrors` | packages/contracts/src/NodeManager.sol:58-61 | Which error processing fails with before anything is captured |
| `Errors.AdmissionErrors` | packages/contracts/src/ReportManager.sol:60-178 | Which error a report fails with: the first check, in the contract's order, that does not hold |
| `Errors.ConsensusError` | packages/contracts/src/ReportManager.sol:283-283 | A report that gets through the loop fails only for want of half of the reporters |
| `Contracts.LogStoreNodeManager.Stake` | packages/contracts/src/NodeManager.sol:254-263 | The method has exactly the effect and the reverts of the step that `Effects.StakeEffect` spells out account by account |
| `Contracts.LogStoreNodeManager.Delegate` | packages/contracts/src/NodeManager.sol:265-276 | The method has exactly the effect and the reverts of the step that `Effects.DelegateEffect` spells out account by account |
| `Contracts.LogStoreNodeManager.Undelegate` | packages/contracts/src/NodeManager.sol:278-289 | The method has exactly the effect and the reverts of the step that `Effects.UndelegateEffect` spells out account by account |
| `Contracts.LogStoreNodeManager.Withdraw` | packages/contracts/src/NodeManager.sol:296-304 | The method has exactly the effect and the reverts of the step that `Effects.WithdrawEffect` spells out account by account |
| `Contracts.LogStoreNodeManager.TreasuryWithdraw` | packages/contracts/src/NodeManager.sol:140-148 | The method has exactly the effect and the reverts of the step that `Effects.TreasuryEffect` spells out account by account |
| `Settlement.CaptureStreamsSolvent` | packages/contracts/src/NodeManager.sol:176-185 | Capturing all stream fees of a report keeps all contracts solvent and raises the supply by exactly the captures with bytes |
| `Settlement.CaptureConsumersSolvent` | packages/contracts/src/NodeManager.sol:186-195 | Capturing all consumer fees of a report keeps all contracts solvent and raises the supply by exactly the captures with bytes |
| `Settlement.AdjustedExact` | packages/contracts/src/NodeManager.sol:196-227 | A reported change is applied exactly iff the balance fits the signed cast and does not go below zero; otherwise the correction is named |
| `Settlement.AdjustDelegatesSum` | packages/contracts/src/NodeManager.sol:207-221 | The delegations change in total by the reported changes plus the corrections met on the way |
| `Settlement.AdjustNodesKeeps` | packages/contracts/src/NodeManager.sol:196-206 | Node changes touch stakes and permissions only and leave the permissions in line |
| `Settlement.ProcessedBooks` | packages/contracts/src/NodeManager.sol:171-231 | Processing moves the accounts by exactly the reported delegate and treasury changes plus corrections, and the supply by exactly the fees |
| `Settlement.ProcessedSolvent` | packages/contracts/src/NodeManager.sol:171-231 | Processing keeps all contracts solvent and permissions in line, needs an unprocessed id and marks it |
| `Settlement.ProcessedList` | packages/contracts/src/NodeManager.sol:171-231 | Processing leaves the node sequence alone |
| `Processing.ProcessIff` | packages/contracts/src/NodeManager.sol:171-231 | A report is processed iff the sender is staked, the id unprocessed, each charged escrow still has stake at its turn, the supply takes all fees, and each changed amount stays in the signed range at its turn |
| `Processing.ProcessAfterRunIff` | packages/contracts/src/NodeManager.sol:171-231 | The same in every reachable state |
| `Processing.EmptyStreamBlocks` | packages/contracts/src/StoreManager.sol:66-67 | Nobody can process a report that charges a stream without stake, or one emptied by an earlier entry |
| `Processing.ProcessedNode` | packages/contracts/src/NodeManager.sol:196-227 | After processing every stake, every delegation and the treasury have gone through all their changes in order; balances and whitelist are as before |
| `Processing.ProcessedEscrows` | packages/contracts/src/NodeManager.sol:176-195 | After processing every stream and every consumer have gone through all their captures, and no outside account's tokens have moved |
| `Processing.AmountAdds` | packages/contracts/src/NodeManager.sol:196-206 | An amount changes by the sum of the changes to it as long as it stays between zero and the signed maximum on the way |
| `Processing.ChangedAmount` | packages/contracts/src/NodeManager.sol:199-204 | A single change takes an amount to the sum, or to zero if that is negative |
| `Processing.FeesAdd` | packages/contracts/src/StoreManager.sol:66-123 | A stream loses the sum of the report's fees for it, or all it has |
| `Processing.ChargesAdd` | packages/contracts/src/QueryManager.sol:54-64 | A consumer loses the sum of the report's charges, or all it has |
| `Contracts.LogStoreNodeManager.CaptureStreamFees` | packages/contracts/src/NodeManager.sol:176-185 | The loop over `capture` calls into the store manager does what the step on the whole storage says |
| `Contracts.LogStoreNodeManager.CaptureConsumerFees` | packages/contracts/src/NodeManager.sol:186-195 | The loop over `capture` calls into the query manager does what the step on the whole storage says |
| `Contracts.LogStoreNodeManager.ApplyNodeChanges` | packages/contracts/src/NodeManager.sol:196-206 | The loop is the step after which every stake is what `Processing.ProcessedNode` says |
| `Contracts.LogStoreNodeManager.ApplyDelegateChanges` | packages/contracts/src/NodeManager.sol:207-221 | The nested loops apply the delegate changes in order, each seeing the ones before it |
| `Contracts.LogStoreNodeManager.ApplyChanges` | packages/contracts/src/NodeManager.sol:196-227 | Nodes, then delegates, then treasury, failing as the first that fails |
| `Contracts.LogStoreNodeManager.ProcessReport` | packages/contracts/src/NodeManager.sol:171-231 | The whole method, across all four contracts, is the step whose success `Processing.ProcessIff` and whose outcome `Processing.ProcessedNode` and `ProcessedEscrows` state |
| `Stores.StakeValid` | packages/contracts/src/StoreManager.sol:140-160 | Staking keeps the escrow invariant |
| `Stores.QuotientShare` | packages/contracts/src/StoreManager.sol:99-110 | An integer-quotient fee never exceeds the stake it is taken from, and who pays one keeps at least what the whole stream is left with |
| `Fees.QuotientExact` | packages/contracts/src/StoreManager.sol:96-100 | In one turn of the loop, dividing before multiplying takes no more than the proportional fee, and takes exactly it iff the dropped remainder times the amount is less than the stream's stake |
| `Fees.ProportionalIff` | packages/contracts/src/StoreManager.sol:94-122 | What a whole capture takes from any staker is its proportional fee iff: it is not listed and the fee is below one token; or nothing is captured; or it is listed, the remainder is worth less than one token, and a second turn (if it is listed again) finds less than one share left. A second turn that takes anything takes more than the fee |
| `Fees.CaptureCharges` | packages/contracts/src/StoreManager.sol:94-122 | A capture within the stream's stake charges each staker once for every time the list names it, each time by the quotient of what is left |
| `Fees.CaptureClears` | packages/contracts/src/StoreManager.sol:73-93 | A capture beyond the stream's stake takes everything from those listed and nothing from anybody else |
| `Fees.NothingPaid` | packages/contracts/src/StoreManager.sol:95-122 | The concrete capture: stakes of 4 and 2, two captured; the first pays 0 instead of 1, and so does everybody |
| `Fees.TwoStakersStaked` | packages/contracts/src/StoreManager.sol:152-158 | Its starting point is reached from the empty contract by two stakes |
| `Fees.RelistedIff` | packages/contracts/src/StoreManager.sol:111-118 | The rebuilt list is the list without the stakeholder iff nobody else was on it |
| `Fees.FinishedIff` | packages/contracts/src/StoreManager.sol:111-119 | In one turn of the loop, a finished stakeholder is taken off the list as announced iff it was alone on it |
| `Fees.ListIff` | packages/contracts/src/StoreManager.sol:94-122 | After a whole capture the list is that of the stakers who are left iff none of those listed is finished or all entries are the same staker |
| `Fees.RemainingStakerVanishes` | packages/contracts/src/StoreManager.sol:95-122 | The concrete next capture and the state it ends in: the first stake is finished, the second staker keeps 2 tokens, and the list names the first only |
| `Fees.StakersReturn` | packages/contracts/src/StoreManager.sol:152-158 | Both stake again: the first is now listed twice, the second not at all |
| `Fees.NothingPaidAgain` | packages/contracts/src/StoreManager.sol:94-122 | A capture of 4 out of 6 takes nothing from either |
| `Fees.ChargedTwice` | packages/contracts/src/StoreManager.sol:94-122 | With stakes of 4 each in a stream of 2, a capture of one takes 3 from the first and 0 from the second, where the proportional fee of both is 2 |
| `Stores.ResetAllKeeps` | packages/contracts/src/StoreManager.sol:77-88 | Resetting any stakeholder list, repetitions and strangers included, is covered at each subtraction, keeps balances equal to stakes, leaves other streams alone |
| `Stores.DeductAllKeeps` | packages/contracts/src/StoreManager.sol:95-120 | Deducting along any stakeholder list succeeds, is covered at each subtraction, and leaves the stream backed for what remains |
| `Stores.CaptureStakeKeeps` | packages/contracts/src/StoreManager.sol:72-123 | Both branches of a capture keep all books and take exactly the captured amount off the stream |
| `Stores.CaptureSucceeds` | packages/contracts/src/StoreManager.sol:66-135 | A capture by the node manager succeeds iff the stream has stake and the receiver can be credited; "error_insufficientStake" is unreachable |
| `Stores.CaptureValid` | packages/contracts/src/StoreManager.sol:66-138 | A capture keeps the escrow invariant, moves exactly the captured tokens, records the rest as overflow, and takes the full amount off `totalSupply`, or all of it with the rest recorded |
| `Stores.SoleExact` | packages/contracts/src/StoreManager.sol:95-122 | A stream with a single staker has exactly that staker's tokens |
| `Stores.CaptureSole` | packages/contracts/src/StoreManager.sol:72-123 | A capture keeps a single staker's stream exact, list and all |
| `Stores.CaptureElsewhere` | packages/contracts/src/StoreManager.sol:72-123 | A capture leaves the books of every other stream alone |
| `Contracts.LogStoreManager.Credit` | packages/contracts/src/StoreManager.sol:152-158 | The field updates of `stake` carry out the crediting step or revert as it does |
| `Contracts.LogStoreManager.Stake` | packages/contracts/src/StoreManager.sol:140-160 | The method is the step `StakeValid` is about, with its checks in the same order |
| `Contracts.LogStoreManager.CaptureEverything` | packages/contracts/src/StoreManager.sol:73-93 | The reset loop over the list read at the start carries out the overflow branch |
| `Contracts.LogStoreManager.Relist` | packages/contracts/src/StoreManager.sol:113-118 | The list is rebuilt from copies of the stakeholder itself, one per entry that is somebody else |
| `Contracts.LogStoreManager.DeductFrom` | packages/contracts/src/StoreManager.sol:98-119 | One stakeholder pays its quotient share, clamps and list rebuilding included, or the division or product reverts |
| `Contracts.LogStoreManager.CaptureShares` | packages/contracts/src/StoreManager.sol:94-123 | The deduction loop carries out the other branch, failing where it fails |
| `Contracts.LogStoreManager.Capture` | packages/contracts/src/StoreManager.sol:66-138 | The method has exactly the effect and the reverts of the step the capture lemmas are about |
| `Queries.StakeValid` | packages/contracts/src/QueryManager.sol:80-89 | Staking keeps the escrow invariant |
| `Queries.CaptureSucceeds` | packages/contracts/src/QueryManager.sol:54-75 | A capture succeeds iff the consumer has stake and the receiver can be credited; "error_insufficientStake" is unreachable |
| `Queries.CaptureValid` | packages/contracts/src/QueryManager.sol:54-78 | A capture keeps the escrow invariant, moves exactly the captured tokens, records the rest as overflow, and takes the full amount off `totalSupply`, or all of it with the rest recorded |
| `Contracts.LogStoreQueryManager.Stake` | packages/contracts/src/QueryManager.sol:80-89 | The method has exactly the effect and the reverts of the step `Queries.StakeValid` is about |
| `Contracts.LogStoreQueryManager.Capture` | packages/contracts/src/QueryManager.sol:54-78 | The method has exactly the effect and the reverts of the step the capture lemmas are about |
| `Token.TransferConservesSupply` | packages/contracts/src/StoreManager.sol:134-134 | A transfer, to oneself or another, conserves the token supply |
| `Contracts.StakeToken.Transfer` | packages/contracts/src/StoreManager.sol:134-134 | Two ledger writes move the amount or fail |
| `Ranking.BubbleSort` | packages/contracts/src/ReportManager.sol:131-137 | The in-place sort leaves the reference ranking of the array it started from |
| `Ranking.RankedPermutes` | packages/contracts/src/ReportManager.sol:127-138 | The ranking is a permutation of the nodes |
| `Ranking.RankedDescending` | packages/contracts/src/ReportManager.sol:127-138 | In the ranking nobody comes before a reporter of higher reputation |
| `Ranking.RankedStable` | packages/contracts/src/ReportManager.sol:127-138 | Reporters of equal reputation are ranked in the order of joining |
| `Ranking.RankedCharacterized` | packages/contracts/src/ReportManager.sol:127-138 | A sequence is descending and stable with respect to the nodes iff it is their ranking |
| `Ranking.RankedBefore` | packages/contracts/src/ReportManager.sol:127-138 | A reporter ranks ahead of another iff its reputation is higher, or equal and it joined first |
| `Contracts.LogStoreReportManager.GetReporters` | packages/contracts/src/ReportManager.sol:127-138 | `getReporters` returns the ranking of the node manager's list and reverts if that is empty |
| `Schedule.MayReport` | packages/contracts/src/ReportManager.sol:345-379 | The search for the cycle and for the reporter, from the mean and the block's time, decides exactly what `Clock.MayReportIff` spells out, overflow and endless search included |
| `Schedule.CurrentCycle` | packages/contracts/src/ReportManager.sol:362-368 | The search ends whenever a cycle takes time, with the cycle that contains the time, or reverts iff the end of that cycle overflows |
| `Schedule.SlotIsTurn` | packages/contracts/src/ReportManager.sol:368-376 | A time lies in slot i of its cycle iff i is the elapsed time divided by the buffer, modulo the number of reporters |
| `Schedule.OneReporterAtATime` | packages/contracts/src/ReportManager.sol:352-379 | From the mean on exactly the reporter at rank ((T - mean) / buffer) mod n may submit; before it nobody may |
| `Schedule.EqualShares` | packages/contracts/src/ReportManager.sol:352-379 | Each reporter may submit at exactly `buffer` points in time of every full cycle |
| `Schedule.AggregateTimestamps` | packages/contracts/src/ReportManager.sol:336-343 | The loop computes the scaled mean, reverting iff the scaled total overflows or there are no timestamps |
| `Clock.MayReportIff` | packages/contracts/src/ReportManager.sol:345-379 | `_canReport` says yes iff the scaled sum and the time are words, the time (the test time if set, else the block's seconds times 1000 times ten billion) is no earlier than the mean, the whole slots since the mean modulo the number of reporters are the sender's rank, and the end of the current cycle is a word |
| `Clock.MeanIff` | packages/contracts/src/ReportManager.sol:336-343 | The mean is the sum times ten billion over the number of timestamps, rounded down; it exists iff there are timestamps and the scaled sum is a word |
| `Clock.TimeIff` | packages/contracts/src/ReportManager.sol:345-350 | The time is the test time if it is set, else the block's in scaled milliseconds; it exists iff it is a word |
| `Clock.FirstTurn` | packages/contracts/src/ReportManager.sol:345-379 | A concrete block and proof at the same moment: it is the first reporter's turn and not the second's |
| `Clock.AdmittedOnTime` | packages/contracts/src/ReportManager.sol:177-178 | A report passes its checks only at its sender's turn in that sense |
| `Consensus.CheckQuorum` | packages/contracts/src/ReportManager.sol:307-326 | Despite its early exit the loop decides whether there are members and at least half of them participate |
| `Consensus.PresentIsIntersection` | packages/contracts/src/ReportManager.sol:312-325 | What it counts is the size of the intersection: each member once |
| `Consensus.FindProof` | packages/contracts/src/ReportManager.sol:241-249 | The lookup ends with the signature and timestamp at the last index that names the reporter, with an empty proof if none does, or out of range |
| `Consensus.CountedAreBacking` | packages/contracts/src/ReportManager.sol:240-281 | The stored proofs are exactly those of the reporters whose proof verifies, in rank order |
| `Consensus.BackersSound` | packages/contracts/src/ReportManager.sol:240-262 | They verify and belong to pairwise distinct reporters, in rank order |
| `Consensus.CountNeedsTheTail` | packages/contracts/src/ReportManager.sol:277-280 | The loop counts a report only if every reporter ranked beyond the number of addresses verified, and then cannot run out of range |
| `Consensus.ReputationsAfter` | packages/contracts/src/ReportManager.sol:269-276 | The closed form of the reputation loop when all reporters verify |
| `Consensus.OrderBehindSender` | packages/contracts/src/ReportManager.sol:127-138 | After such a report those behind the sender stay behind it and in order in the next ranking |
| `ReportManager.AdmittedOnTurn` | packages/contracts/src/ReportManager.sol:164-178 | Passing all checks means: staked, quorum met, and the sender's turn |
| `ReportManager.QuorumOfMembers` | packages/contracts/src/ReportManager.sol:174-175 | The quorum counts the different members among the participants |
| `ReportManager.AcceptedReport` | packages/contracts/src/ReportManager.sol:145-302 | Acceptance means all of: staked sender on turn, quorum, stored proofs exactly the verified ones and sound, at least half; and the stored report is the submitted one |
| `Proofs.StoredIff` | packages/contracts/src/ReportManager.sol:240-262 | A proof is stored with an accepted report iff its signer is a registered node, it is the signature and timestamp at the last index that names that node, the signature has 65 bytes, and it recovers to the node from the packed id, height, content, treasury change and that timestamp |
| `Proofs.BacksIff` | packages/contracts/src/ReportManager.sol:241-260 | A reporter's proof is good iff the last entry with its address is signed by it |
| `Proofs.ContentSpelled` | packages/contracts/src/ReportManager.sol:181-231 | The stored entries are read off the argument arrays index by index |
| `Proofs.DelegateSpelled` | packages/contracts/src/ReportManager.sol:214-231 | So are the nested ones |
| `Acceptance.SubmitIff` | packages/contracts/src/ReportManager.sol:145-302 | A report is accepted iff the checks pass, it is the sender's turn in a schedule within range, all arrays are long enough, every rank can be counted, and at least half of the reporters verified |
| `Acceptance.AdmitIff` | packages/contracts/src/ReportManager.sol:164-178 | The checks before the loop pass iff: staked, unprocessed, height in range, array lengths in sum, nodes exist, half of them participate, and it is the sender's turn in a schedule within range |
| `Acceptance.CanReportIff` | packages/contracts/src/ReportManager.sol:352-379 | The schedule decides for a reporter iff it is its turn and the end of the current cycle can be computed |
| `Acceptance.CountIff` | packages/contracts/src/ReportManager.sol:235-281 | The loop over the reporters gets through iff each rank is backed or an index into `addresses`, and no reputation that was not reset before overflows |
| `Acceptance.ProofForIff` | packages/contracts/src/ReportManager.sol:241-249 | The lookup stays in range iff each address that names the reporter has its signature and timestamp |
| `Acceptance.OneNodeAccepted` | packages/contracts/src/ReportManager.sol:145-302 | A concrete report that is accepted: one node, one proof |
| `Acceptance.UnequalArraysPass` | packages/contracts/src/ReportManager.sol:167-170 | A concrete call whose arrays have unequal lengths, passes all checks, and then fails in the loop |
| `Reputation.AcceptedReputations` | packages/contracts/src/ReportManager.sol:240-281 | The reputation of every address after any accepted report: gains and losses by rank, resets before and after the own rank included |
| `Reputation.AcceptedAsAnnouncedIff` | packages/contracts/src/ReportManager.sol:264-280 | It is what the comments announce iff a bad proof's author is hit by some bad rank's index and nobody else is, or the difference does not show |
| `Reputation.BadReporterIff` | packages/contracts/src/ReportManager.sol:277-280 | A reporter without a good proof ends at zero iff it had zero or stands at the index of some bad rank |
| `Reputation.HonestReset` | packages/contracts/src/ReportManager.sol:145-302 | A concrete accepted report: the honest sender's 7 are wiped out before its reward, the absent node keeps its 7 |
| `Reputation.HalfNotEnough` | packages/contracts/src/ReportManager.sol:145-302 | A concrete report that passes all checks with half of the proofs good, and reverts |
| `ReportManager.UnanimousReputations` | packages/contracts/src/ReportManager.sol:264-281 | If all reporters verify, the sender gains 10, those ahead lose 5 or what they have, those behind gain 1, nobody else changes |
| `ReportManager.UnanimousRanking` | packages/contracts/src/ReportManager.sol:127-138 | If all reporters verify, then in the next ranking those behind the sender are still behind it, in the same order |
| `ReportManager.AcceptedNeedsTheTail` | packages/contracts/src/ReportManager.sol:277-283 | Half of the proofs is not enough: an accepted report has verified proofs of all reporters ranked beyond its number of addresses |
| `ReportManager.SubmitMovesForward` | packages/contracts/src/ReportManager.sol:165-166 | Acceptance raises the last height and clears no processed flag |
| `Contracts.LogStoreReportManager.Admit` | packages/contracts/src/ReportManager.sol:164-178 | The checks in their order, through the real sort, quorum loop and schedule search |
| `Contracts.LogStoreReportManager.Reward` | packages/contracts/src/ReportManager.sol:261-276 | Storing one proof and adjusting its signer's reputation |
| `Contracts.LogStoreReportManager.CountAt` | packages/contracts/src/ReportManager.sol:240-281 | One turn of the loop: the proof is counted and stored iff it verifies; otherwise the address at the index of the rank is reset, or the index is out of range |
| `Contracts.LogStoreReportManager.CountProofs` | packages/contracts/src/ReportManager.sol:235-281 | The loop over storage computes the tally the consensus lemmas are about, and its count is one unit per stored proof |
| `Contracts.LogStoreReportManager.SubmitReport` | packages/contracts/src/ReportManager.sol:145-302 | The whole of `report` is the step the acceptance lemmas are about |
| `Reports.RebuildStreams` | packages/contracts/src/ReportManager.sol:181-191 | The loop returns the zipped entries and the packed bytes of exactly those entries, or runs out of range |
| `Reports.RebuildConsumers` | packages/contracts/src/ReportManager.sol:193-206 | The consumer loop returns the zipped entries and the packed bytes of exactly those entries, or runs out of range |
| `Reports.RebuildNodes` | packages/contracts/src/ReportManager.sol:208-212 | The node loop, of the report or of one delegate, returns the zipped entries and their packed bytes, or runs out of range |
| `Reports.RebuildDelegates` | packages/contracts/src/ReportManager.sol:214-231 | The nested loop returns the zipped delegates and their packed bytes; it fails iff some delegate's arrays are too short |
| `Reports.Rebuild` | packages/contracts/src/ReportManager.sol:180-231 | The entries and the pack rebuilt from the argument arrays belong together; `Proofs.ContentSpelled` and `Packing.PackLayout` say what they are |
| `HexStrings.LengthMinimal` | packages/contracts/src/lib/StringsUpgradeable.sol:51-55 | `log256 + 1` bytes hold a number, and no fewer do (but for zero) |
| `HexStrings.UnsignedNeverReverts` | packages/contracts/src/lib/StringsUpgradeable.sol:51-55 | The length check never trips for the computed length |
| `HexStrings.FixedReverts` | packages/contracts/src/lib/StringsUpgradeable.sol:69-79 | A given length is refused iff it is shorter than that |
| `HexStrings.HexParses` | packages/contracts/src/lib/StringsUpgradeable.sol:51-64 | The text parses back to the signed number |
| `HexStrings.SameText` | packages/protocol/src/report/ReportSerializerV1.ts:28-66 | The text `toHexString` makes of a BigNumber is the text Solidity makes |
| `Spelling.HexSpelled` | packages/contracts/src/lib/StringsUpgradeable.sol:51-79 | The text of a number character by character: minus sign, `0x`, and the lower-case digit of weight 16^(n-1-i) at position i, in the fewest whole bytes |
| `Spelling.DecimalParses` | packages/protocol/src/report/ReportSerializerV1.ts:77-77 | Decimal text, with or without a minus sign, parses to the number it spells |
| `HexStrings.ToHexStringFixed` | packages/contracts/src/lib/StringsUpgradeable.sol:69-79 | The buffer loop, filled from the end, yields prefix and digits most significant first, or reverts |
| `HexStrings.ToHexString` | packages/contracts/src/lib/StringsUpgradeable.sol:51-55 | The unsigned overload always returns the minimal text |
| `HexStrings.ToHexStringSigned` | packages/contracts/src/lib/StringsUpgradeable.sol:60-64 | The signed overload puts the sign in front of it |
| `Text.Utf8RoundTrip` | packages/protocol/src/utils/hex.ts:3-7 | Encoding and decoding UTF-8 (section 3 of RFC 3629) returns the string with lone surrogates replaced |
| `Text.HexRoundTrip` | packages/protocol/src/utils/hex.ts:3-7 | `hexToStr(strToHex(s)) == s` iff the string holds no lone surrogate |
| `Spelling.StrToHexSpelled` | packages/protocol/src/utils/hex.ts:3-4 | The text of a string: `0x`, and for each of its bytes the high and the low lower-case digit |
| `Spelling.Utf8Spelled` | packages/protocol/src/utils/hex.ts:3-4 | The bytes of a code point as in the table of section 3 of RFC 3629 |
| `Spelling.Utf8Append` | packages/protocol/src/utils/hex.ts:3-4 | A string's bytes are those of its code points one behind the other, EF BF BD for a lone surrogate |
| `Serializer.SerializeReport` | packages/protocol/src/report/ReportSerializerV1.ts:25-72 | The loops filling `nodes` and `delegates` key by key copy every entry in order |
| `Spelling.WireSpelled` | packages/protocol/src/report/ReportSerializerV1.ts:53-71 | On the wire stream ids are hexadecimal text of their bytes and amounts hexadecimal text of the number; everything else is as it was |
| `Spelling.WireEventsSpelled` | packages/protocol/src/report/ReportSerializerV1.ts:42-51 | So are the ids of storage events; query events are as they were |
| `Serializer.DeserializeReport` | packages/protocol/src/report/ReportSerializerV1.ts:74-120 | The loops copy every entry back in order, failing iff some text does not parse |
| `Serializer.SerializeDelegates` | packages/protocol/src/report/ReportSerializerV1.ts:31-40 | The nested loop, which adds an empty object and fills it in place, copies every record |
| `Serializer.DeserializeDelegates` | packages/protocol/src/report/ReportSerializerV1.ts:80-88 | The nested loop copies every record back in order, failing iff some amount does not parse |
| `Serializer.SerializeRoundTrip` | packages/protocol/src/report/ReportSerializerV1.ts:25-120 | `deserialize(serialize(r)) == r` iff no stream or storage id holds a lone surrogate |
| `Serializer.FormsAgreeIff` | packages/protocol/src/report/ReportSerializerV1.ts:131-176 | `toContract` gives the same call for both forms of a report iff no stream id holds a lone surrogate |
| `Serializer.FormsHashAlike` | packages/protocol/src/report/ReportSerializerV1.ts:178-232 | `toHash` gives the same preimage for both forms of a report |
| `Serializer.HashInput` | packages/protocol/src/report/ReportSerializerV1.ts:186-227 | The packing loops build the preimage that the agreement theorem is about |
| `Agreement.RebuiltReport` | packages/protocol/src/report/ReportSerializerV1.ts:131-176 | Zipping the arrays of `toContract` on chain rebuilds the same report, nested delegates included |
| `Agreement.SameHash` | packages/contracts/src/ReportManager.sol:251-259 | For every report that can be encoded, the contract hashes exactly the bytes that `toHash` hashes iff the timestamp is not zero |
| `Packing.BigEndianAt` | packages/contracts/src/ReportManager.sol:184-189 | `abi.encodePacked` puts the byte of weight 256^(k-1-i) at position i |
| `Packing.PackedNumbers` | packages/contracts/src/ReportManager.sol:184-200 | A packed uint256 has 32 bytes and a packed address 20, and both are read off them again |
| `Packing.PackInjective` | packages/contracts/src/ReportManager.sol:184-200 | Different numbers are packed differently |
| `Packing.PreimageLayout` | packages/contracts/src/ReportManager.sol:251-259 | In the preimage stand the id, 32 bytes of height, the pack, the text of the treasury change, and 32 bytes of timestamp |
| `Packing.PreimagesDiffer` | packages/contracts/src/ReportManager.sol:251-259 | Reports with one id and different heights, or proofs with different timestamps, never share a preimage |
| `Packing.PackLayout` | packages/contracts/src/ReportManager.sol:181-231 | The pack holds the shares of streams, consumers, nodes and delegates, in this order |
| `Packing.SharesInOrder` | packages/contracts/src/ReportManager.sol:184-228 | The share of each list is that of its entries one behind the other |
| `Packing.OneStream` | packages/contracts/src/ReportManager.sol:184-189 | A stream's share is its id, the text of the amount, and 32 bytes with the byte count |
| `Packing.OneConsumer` | packages/contracts/src/ReportManager.sol:195-200 | A consumer's share is 20 bytes of address, the text of the amount, and 32 bytes with the byte count |
| `Packing.OneNode` | packages/contracts/src/ReportManager.sol:210-210 | A node's share is 20 bytes of address and the text of the signed change |
| `Packing.OneDelegate` | packages/contracts/src/ReportManager.sol:216-228 | A delegate's share is 20 bytes of address and the shares of its nodes |
| `Indexing.StepConsistent` | packages/client/src/utils/SynchronizedGraphQLClient.ts:54-106 | Every interleaved step keeps: stored gates are closed and ask for more than the last poll; whoever waits at a closed gate is stored |
| `Indexing.StepAttendedIff` | packages/client/src/utils/SynchronizedGraphQLClient.ts:74-106 | A step leaves waiters without a polling loop iff it is the failing poll of the last loop |
| `Indexing.NobodyStranded` | packages/client/src/utils/SynchronizedGraphQLClient.ts:54-106 | Under every interleaving each stored gate is closed and asks for more than the last poll; if no poll fails, every waiter at a closed gate has a polling loop |
| `Indexing.SentAfterIndexed` | packages/client/src/utils/SynchronizedGraphQLClient.ts:135-142 | A query is sent only after some poll returned the block it waits for |
| `Indexing.QuerySeesWrites` | packages/client/src/utils/SynchronizedGraphQLClient.ts:135-142 | A query is sent only after some poll reached every block notified before the query was made |
| `Indexing.FailureStrands` | packages/client/src/utils/SynchronizedGraphQLClient.ts:87-106 | One failed poll leaves a waiter at a closed gate without a polling loop: the concrete run |
| `Indexing.StepReattendsIff` | packages/client/src/utils/SynchronizedGraphQLClient.ts:61-72 | From waiters without a loop, a step ends that state iff it is the timeout of the last stored gate |
| `Indexing.StrandedWhileWaiting` | packages/client/src/utils/SynchronizedGraphQLClient.ts:74-106 | Until then, along every run, nothing is polled and no query starts a loop |
| `Indexing.QueryStartsPolling` | packages/client/src/utils/SynchronizedGraphQLClient.ts:74-85 | Once no gate is stored, the next query that has to wait starts a loop |
| `Indexing.LaterQueries` | packages/client/src/utils/SynchronizedGraphQLClient.ts:61-85 | The concrete continuations: a query made before the timeout waits in vain as well, one made after it is polled for |
| `Indexing.LoopEndsIff` | packages/client/src/utils/SynchronizedGraphQLClient.ts:87-105 | A loop that looks again ends iff no gate is stored any more, and otherwise sleeps after a poll and polls after a sleep |
| `Indexing.LoopStartsIff` | packages/client/src/utils/SynchronizedGraphQLClient.ts:74-85 | A loop starts iff a query has to wait and no gate is stored, whether or not another loop is alive |
| `Indexing.SecondLoopIff` | packages/client/src/utils/SynchronizedGraphQLClient.ts:61-85 | There come to be two loops iff a query has to wait while a loop has outlived all its gates |
| `Indexing.TwoLoops` | packages/client/src/utils/SynchronizedGraphQLClient.ts:61-85 | The concrete run: a gate times out during the poll, the next query starts a second loop |
| `Indexing.QueryWaitsIff` | packages/client/src/utils/SynchronizedGraphQLClient.ts:74-85 | A query gets a gate for the block required at that time, and waits iff that is beyond the last block polled |
| `Indexing.OpenedIff` | packages/client/src/utils/SynchronizedGraphQLClient.ts:90-100 | A poll opens a gate iff it is stored and asks for no more than the poll returned, and stores that block number |
| `Indexing.PolledMayResume` | packages/client/src/utils/SynchronizedGraphQLClient.ts:94-99 | Whoever waits for no more than a poll returned may go on |
| `Indexing.WaiterAfter` | packages/client/src/utils/SynchronizedGraphQLClient.ts:59-71 | A waiter is through when it resumes, out when it times out, and waits otherwise |
| `SynchronizedClient.IndexingState.WaitUntilIndexed` | packages/client/src/utils/SynchronizedGraphQLClient.ts:54-85 | Creating a gate, and a polling loop iff no gate was stored, is one step of the model |
| `SynchronizedClient.IndexingState.PollReturned` | packages/client/src/utils/SynchronizedGraphQLClient.ts:90-104 | Opening and deleting gates while iterating over them is one step, whatever the order |
| `SynchronizedClient.IndexingState.HandleAll` | packages/client/src/utils/SynchronizedGraphQLClient.ts:34-106 | Events in any possible order take the client's fields through exactly the states of the model |
| `SynchronizedClient.HandleRun` | packages/client/src/utils/SynchronizedGraphQLClient.ts:54-142 | A client that handled any run since its construction: stored gates are closed and ahead of the last poll, waiters have a polling loop if no poll failed, sent queries had their block polled |
| `Pagination.FetchPaginatedResults` | packages/client/src/utils/GraphQLClient.ts:68-94 | The loop terminates and yields everything beyond the empty id once, in order, for every page size but zero, exact multiples included |
| `Pagination.WholeCollection` | packages/client/src/utils/GraphQLClient.ts:84-87 | That is the whole collection iff no item has the empty id |
| `Pagination.EmptyIdLost` | packages/client/src/utils/GraphQLClient.ts:84-87 | The concrete collection: one item, with the empty id, never fetched |
| `Pagination.NextPage` | packages/client/src/utils/GraphQLClient.ts:84-92 | Each page starts where the last one ended |

## Left out

- Signature recovery, keccak256 and EIP-191: recovery is a parameter, any function of signed bytes and signature; hashes are compared by their preimages.
- UUPS upgrades, initializers, ownership transfer, re-registering managers, reentrancy guards: owner and managers are fixed for a run. The initial nodes of `initialize` are upserts by the owner.
- Gas: only the endless cycle search is modelled as running out of it. Array lengths are unbounded.
- Allowances of the token: `transferFrom` is taken to be approved. Blacklists, pricing and minting of LSAN are absent.
- Tokens sent straight to a contract: excluded from runs; they would sit there unrecorded.
- The Streamr registry: a set of permitted nodes, and a parameter that says which streams exist.
- Events: only the overflow arguments are kept, added up in a field of each escrow.
- Clocks and block numbers: part of each transaction. They need not increase from one transaction to the next, which only adds runs.
- Addresses as text: addresses are numbers, so checksum spelling, and with it two spellings of one address, does not occur.
- `BigNumber`, the ABI encoder and OpenZeppelin's `log256`: modelled by their documented results.
- Malformed text: `hexToStr` on bytes that are not UTF-8 and the encoder's exception on a lone surrogate in the report id are not distinguished further; the first yields `None`, the second is excluded where it matters (`Agreement.SameHash`).
- `toJSON`, the decimal `toString` overloads, system message serializers, validations: they would add easy members only.
- Microtask order inside `Gate` and `withTimeout`: a timeout may happen at any time while a waiter waits, which covers every order.
- The server behind the pagination loop: taken to answer with the first items beyond the last id, in order. `getStoredStreams` does not select the id its cursor needs, so it is not claimed.
- Contracts.LogStoreReportManager.SubmitReport: each rebuilding loop returns its own share of the packed bytes and the shares are joined afterwards, where the original appends to one buffer throughout.
- Contracts.LogStoreManager.Credit: the checked additions are decided before the writes, where the original reverts between them; the revert undoes those writes.
- HTTP, configuration, command line, deployment, subgraph, heartbeat, benchmarks.
