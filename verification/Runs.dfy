/** What holds after, and along, every run of the protocol from deployment on. */
module Runs {
  import opened Evm
  import opened Mappings
  import opened NodeManager
  import opened Protocol
  import opened Registry
  import opened Sequences
  import opened Settlement
  import opened Token

  import Consensus
  import Ranking
  import ReportManager
  import Reports
  import Stores

  // ----- money

  /** The node manager's recorded supply exceeds its tokens by exactly the sum of all capture overflows. */
  lemma SupplyGapIsOverflow(w: World, env: Env, calls: seq<Call>)
    requires Initial(w, env) && AllAdmissible(env, calls)
    ensures var w' := Run(w, env, calls);
            w'.node.totalSupply - Get(w'.ledger, env.contracts.nodeManager)
            == w'.stores.captureOverflow + w'.queries.captureOverflow
  {
    InitialValid(w, env);
    RunValid(w, env, calls, []);
  }

  /** Each escrow holds exactly what it owes. Its recorded supply falls short of that by exactly the capture overflows
      less the supply overflows, and so equals it until the first CaptureOverflow; SupplyOverflow never comes first. */
  lemma EscrowsSolvent(w: World, env: Env, calls: seq<Call>)
    requires Initial(w, env) && AllAdmissible(env, calls)
    ensures var w', c := Run(w, env, calls), env.contracts;
            && Get(w'.ledger, c.storeManager) == Sum(w'.stores.stores) >= w'.stores.totalSupply
            && Get(w'.ledger, c.queryManager) == Sum(w'.queries.balanceOf) >= w'.queries.totalSupply
            && Sum(w'.stores.stores) - w'.stores.totalSupply == w'.stores.captureOverflow - w'.stores.supplyOverflow
            && Sum(w'.queries.balanceOf) - w'.queries.totalSupply
               == w'.queries.captureOverflow - w'.queries.supplyOverflow
            && (w'.stores.captureOverflow == 0 ==>
                  w'.stores.totalSupply == Sum(w'.stores.stores) && w'.stores.supplyOverflow == 0)
            && (w'.queries.captureOverflow == 0 ==>
                  w'.queries.totalSupply == Sum(w'.queries.balanceOf) && w'.queries.supplyOverflow == 0)
  {
    InitialValid(w, env);
    RunValid(w, env, calls, []);
  }

  /** A user's balance is the sum of its stakes, and a stream never claims more than its stakers hold. */
  lemma StoreBooksBalance(w: World, env: Env, calls: seq<Call>, user: Address, stream: Bytes)
    requires Initial(w, env) && AllAdmissible(env, calls)
    ensures var st := Run(w, env, calls).stores;
            && Get(st.balanceOf, user) == RowSum(st.storeBalanceOf, user)
            && Get(st.stores, stream) <= ColumnSum(st.storeBalanceOf, stream)
  {
    InitialValid(w, env);
    RunValid(w, env, calls, []);
  }

  /** Hence in every reachable state the clamps of `capture` are dead and a stream's capture can only
      fail for want of stake (or because the node manager's token balance would overflow). */
  lemma CaptureReachable(w: World, env: Env, calls: seq<Call>, stream: Bytes, amount: Uint256)
    requires Initial(w, env) && AllAdmissible(env, calls)
    ensures var w', c := Run(w, env, calls), env.contracts;
            var list := Stores.Stakeholders(w'.stores, stream);
            && (Get(w'.stores.stores, stream) > 0 ==>
                  if amount > Get(w'.stores.stores, stream) then Stores.ResetsCovered(w'.stores, list, stream)
                  else Stores.DeductionsCovered(w'.stores, list, list, stream, amount))
            && (Stores.Capture(w'.stores, w'.ledger, c.storeManager, c.nodeManager, c.nodeManager, stream, amount).Ok?
                <==> Get(w'.stores.stores, stream) > 0
                     && Get(w'.ledger, c.nodeManager) + Stores.Captured(w'.stores, stream, amount) <= UINT256_MAX)
  {
    InitialValid(w, env);
    RunValid(w, env, calls, []);
    var w', c := Run(w, env, calls), env.contracts;
    Stores.CaptureSucceeds(w'.stores, w'.ledger, c.storeManager, c.nodeManager, stream, amount);
    if Get(w'.stores.stores, stream) > 0 {
      Stores.CaptureStakeKeeps(w'.stores, stream, amount);
    }
  }

  // ----- streams with one staker

  /** Nobody but `x` succeeds in staking in `stream`. */
  predicate OnlyStaker(w: World, env: Env, calls: seq<Call>, stream: Bytes, x: Address)
    decreases |calls|
  {
    calls != [] ==>
      && (calls[0].tx.StakeStore? && calls[0].tx.stream == stream && Step(w, env, calls[0]).Ok?
          ==> calls[0].sender == x)
      && OnlyStaker(Apply(w, env, calls[0]), env, calls[1..], stream, x)
  }

  lemma CapturedSole(w: World, c: Contracts, e: Reports.StreamEntry, w': World, s: Bytes, x: Address)
    requires CaptureStream(w, c, e) == Ok(w') && Stores.Sole(w.stores, s, x)
    ensures Stores.Sole(w'.stores, s, x)
  {
    if e.writeBytes != 0 {
      Stores.CaptureSole(w.stores, e.id, e.writeCapture, s, x);
    }
  }

  lemma {:induction false} CapturesSole(w: World, c: Contracts, entries: seq<Reports.StreamEntry>, w': World,
                                        s: Bytes, x: Address)
    requires CaptureStreams(w, c, entries) == Ok(w') && Stores.Sole(w.stores, s, x)
    ensures Stores.Sole(w'.stores, s, x)
    decreases |entries|
  {
    if entries != [] {
      var w1 := CaptureStream(w, c, entries[0]).value;
      CapturedSole(w, c, entries[0], w1, s, x);
      CapturesSole(w1, c, entries[1..], w', s, x);
    }
  }

  lemma {:induction false} ConsumersKeepStores(w: World, c: Contracts, entries: seq<Reports.ConsumerEntry>, w': World)
    requires CaptureConsumers(w, c, entries) == Ok(w')
    ensures w'.stores == w.stores
    decreases |entries|
  {
    if entries != [] {
      ConsumersKeepStores(CaptureConsumer(w, c, entries[0]).value, c, entries[1..], w');
    }
  }

  lemma ProcessSole(w: World, c: Contracts, sender: Address, id: Bytes, w': World, s: Bytes, x: Address)
    requires ProcessReport(w, c, sender, id) == Ok(w') && Stores.Sole(w.stores, s, x)
    ensures Stores.Sole(w'.stores, s, x)
  {
    var content := ReportManager.ReportAt(w.reports, id).content;
    var w1 := CaptureStreams(w, c, content.streams).value;
    CapturesSole(w, c, content.streams, w1, s, x);
    ConsumersKeepStores(w1, c, content.consumers, CaptureConsumers(w1, c, content.consumers).value);
  }

  lemma StakeSole(w: World, env: Env, call: Call, w': World, s: Bytes, x: Address)
    requires Stores.Sole(w.stores, s, x) && call.tx.StakeStore? && Step(w, env, call) == Ok(w')
    requires call.tx.stream == s ==> call.sender == x
    ensures Stores.Sole(w'.stores, s, x)
  {
    Stores.CreditSole(w.stores, call.sender, call.tx.stream, call.tx.amount, s, x);
  }

  /** Only staking on a stream and processing a report touch the store manager. */
  lemma OtherwiseSameStores(w: World, env: Env, call: Call, w': World)
    requires Step(w, env, call) == Ok(w')
    requires !call.tx.StakeStore? && !call.tx.ProcessReportOf?
    ensures w'.stores == w.stores
  {
  }

  lemma StepSole(w: World, env: Env, call: Call, w': World, s: Bytes, x: Address)
    requires Stores.Sole(w.stores, s, x) && Step(w, env, call) == Ok(w')
    requires call.tx.StakeStore? && call.tx.stream == s ==> call.sender == x
    ensures Stores.Sole(w'.stores, s, x)
  {
    match call.tx
    case StakeStore(_, _) => StakeSole(w, env, call, w', s, x);
    case ProcessReportOf(id) => ProcessSole(w, env.contracts, call.sender, id, w', s, x);
    case _ => OtherwiseSameStores(w, env, call, w');
  }

  lemma {:induction false} RunSole(w: World, env: Env, calls: seq<Call>, s: Bytes, x: Address)
    requires Stores.Sole(w.stores, s, x) && OnlyStaker(w, env, calls, s, x)
    ensures Stores.Sole(Run(w, env, calls).stores, s, x)
    decreases |calls|
  {
    if calls != [] {
      if Step(w, env, calls[0]).Ok? {
        StepSole(w, env, calls[0], Step(w, env, calls[0]).value, s, x);
      }
      RunSole(Apply(w, env, calls[0]), env, calls[1..], s, x);
    }
  }

  /** A stream that only ever had one staker is backed to the token, whatever was captured from it. */
  lemma SingleStakerExact(w: World, env: Env, calls: seq<Call>, stream: Bytes, x: Address)
    requires Initial(w, env) && OnlyStaker(w, env, calls, stream, x)
    ensures var st := Run(w, env, calls).stores;
            && Get(st.stores, stream) == ColumnSum(st.storeBalanceOf, stream) == Get(st.storeBalanceOf, (x, stream))
  {
    RunSole(w, env, calls, stream, x);
    Stores.SoleExact(Run(w, env, calls).stores, stream, x);
  }

  // ----- the node list and the permissions

  /** `nodeAddresses` returns the nodes in the order in which they registered, `prev` leads back through
      the same nodes, and the stored index of each is no less than its position. */
  lemma ListRefinesSequence(w: World, env: Env, calls: seq<Call>)
    requires Initial(w, env) && AllAdmissible(env, calls)
    ensures var order, list := Members(w, env, calls, []), Run(w, env, calls).node.list;
            && Distinct(order)
            && NodeAddresses(list) == Ok(order)
            && WalkBack(list.nodes, list.tailNode, list.totalNodes) == Ok(order)
            && (list.startBlockNumber == 0 <==> order == [])
            && (forall a: Address :: a in order <==> At(list.nodes, a).lastSeen != 0)
            && forall i :: 0 <= i < |order| ==> At(list.nodes, order[i]).index >= i
  {
    var order, list := Members(w, env, calls, []), Run(w, env, calls).node.list;
    InitialValid(w, env);
    RunValid(w, env, calls, []);
    NodeAddressesInOrder(list, order);
    WalkBackMirrors(list.nodes, order, |order|);
    assert order[..|order|] == order;
    forall a: Address ensures a in order <==> At(list.nodes, a).lastSeen != 0 {
      RegisteredSeen(list, order, a);
    }
    forall i | 0 <= i < |order| ensures At(list.nodes, order[i]).index >= i {
      assert Threads(list.nodes, order, i);
    }
  }

  /** Every staked node holds the publish permission, across removals and reports. */
  lemma StakedMayPublish(w: World, env: Env, calls: seq<Call>, a: Address)
    requires Initial(w, env) && AllAdmissible(env, calls)
    ensures IsStaked(Run(w, env, calls).node, a) ==> a in Run(w, env, calls).node.permitted
  {
    InitialValid(w, env);
    RunValid(w, env, calls, []);
  }

  // ----- the ledger on runs without report processing

  /** No attempt to process a report succeeds. */
  predicate NoProcessing(w: World, env: Env, calls: seq<Call>)
    decreases |calls|
  {
    calls != [] ==>
      && !(calls[0].tx.ProcessReportOf? && Step(w, env, calls[0]).Ok?)
      && NoProcessing(Apply(w, env, calls[0]), env, calls[1..])
  }

  /** No attempt to remove `n` succeeds. */
  predicate NeverRemoved(w: World, env: Env, calls: seq<Call>, n: Address)
    decreases |calls|
  {
    calls != [] ==>
      && !(n in Removed(calls[0]) && Step(w, env, calls[0]).Ok?)
      && NeverRemoved(Apply(w, env, calls[0]), env, calls[1..], n)
  }

  ghost predicate BooksClosed(st: NodeManager.State) {
    Imbalance(st) == 0 && StakesCovered(st)
  }

  lemma StepBooks(w: World, env: Env, call: Call, w': World, n: Address)
    requires Separate(env.contracts) && Admissible(env, call) && Step(w, env, call) == Ok(w')
    requires !call.tx.ProcessReportOf?
    ensures Imbalance(w'.node) == Imbalance(w.node)
    ensures StakesCovered(w.node) ==> StakesCovered(w'.node)
    ensures n !in Removed(call) && StakeExact(w.node, n) ==> StakeExact(w'.node, n)
  {
    match call.tx
    case StakeStore(_, _) =>
    case StakeQuery(_) =>
    case SubmitReport(_) =>
    case SetReportTimeBuffer(_) =>
    case TransferTokens(_, _) =>
    case OnNode(action) =>
      NodeTxMoves(Funds(w.node, w.ledger), env, call.sender, call.block, action, Funds(w'.node, w'.ledger), []);
  }

  lemma {:induction false} RunBooks(w: World, env: Env, calls: seq<Call>, n: Address)
    requires Separate(env.contracts) && AllAdmissible(env, calls) && NoProcessing(w, env, calls)
    requires BooksClosed(w.node)
    ensures BooksClosed(Run(w, env, calls).node)
    ensures NeverRemoved(w, env, calls, n) && StakeExact(w.node, n) ==> StakeExact(Run(w, env, calls).node, n)
    decreases |calls|
  {
    if calls != [] {
      assert Admissible(env, calls[0]);
      if Step(w, env, calls[0]).Ok? {
        StepBooks(w, env, calls[0], Step(w, env, calls[0]).value, n);
      }
      RunBooks(Apply(w, env, calls[0]), env, calls[1..], n);
    }
  }

  /** As long as no report was processed, the accounts add up to the recorded supply, and a node's stake
      is covered by its delegations: exactly, if it was never removed. */
  lemma LedgerAddsUp(w: World, env: Env, calls: seq<Call>, n: Address)
    requires Initial(w, env) && AllAdmissible(env, calls) && NoProcessing(w, env, calls)
    ensures var st := Run(w, env, calls).node;
            && Sum(st.balanceOf) + Sum(st.delegatesOf) + st.treasurySupply == st.totalSupply
            && StakeOf(st, n) <= ColumnSum(st.delegatesOf, n)
            && (NeverRemoved(w, env, calls, n) ==> StakeOf(st, n) == ColumnSum(st.delegatesOf, n))
  {
    SumEmpty(w.node.balanceOf);
    SumEmpty(w.node.delegatesOf);
    forall a: Address ensures ColumnSum(w.node.delegatesOf, a) == 0 {
      SumEmpty(Column(w.node.delegatesOf, a));
    }
    RunBooks(w, env, calls, n);
  }

  /** What an account can get back from a node. On such runs it is what the account delegated, as far as the node's
      recorded stake goes; and if the node was never removed that is all of it. */
  lemma Redeemable(w: World, env: Env, calls: seq<Call>, delegate: Address, n: Address, amount: Uint256)
    requires Initial(w, env) && AllAdmissible(env, calls) && NoProcessing(w, env, calls)
    ensures var st := Run(w, env, calls).node;
            var delegated := Get(st.delegatesOf, (delegate, n));
            && (Undelegate(st, delegate, amount, n).Ok?
                <==> 0 < amount <= delegated && amount <= StakeOf(st, n) && At(st.list.nodes, n).lastSeen > 0)
            && (NeverRemoved(w, env, calls, n) ==> delegated <= StakeOf(st, n))
  {
    LedgerAddsUp(w, env, calls, n);
    var st := Run(w, env, calls).node;
    ColumnCovers(st.delegatesOf, (delegate, n));
    SumCovers(st.delegatesOf, (delegate, n));
    SumCovers(st.balanceOf, delegate);
  }

  /** A node that was removed and registered again starts from stake zero: whatever was delegated to it before is
      still recorded and no part of it can be undelegated. */
  lemma StuckAfterReturn(st: NodeManager.State, block: Block, n: Address, metadata: Bytes, st1: NodeManager.State,
                         st2: NodeManager.State, delegate: Address, amount: Uint256)
    requires RemoveNode(st, n) == Ok(st1) && UpsertNode(st1, block, n, metadata) == Ok(st2)
    ensures st2.delegatesOf == st.delegatesOf
    ensures Undelegate(st2, delegate, amount, n).Revert?
  {
    RemoveStake(st.list, n, n);
    UpsertStake(st1.list, block, n, metadata, n);
  }

  // ----- the ledger on runs with report processing

  /** How far processing a report drives the accounts and the recorded supply apart: the reported delegate and
      treasury changes with their corrections, less the fees. */
  function DriftOf(w: World, id: Bytes): int {
    var report := ReportManager.ReportAt(w.reports, id);
    var delegations := w.node.delegatesOf;
    DelegateChanges(report.content.delegates) + report.treasury + Correction(w.node.treasurySupply, report.treasury)
    + (if AdjustDelegates(delegations, report.content.delegates).Ok?
       then Corrections(delegations, report.content.delegates) else 0)
    - StreamFees(report.content.streams) - ConsumerFees(report.content.consumers)
  }

  /** The sum over all the reports processed along a run. */
  function Drift(w: World, env: Env, calls: seq<Call>): int
    decreases |calls|
  {
    if calls == [] then 0 else
    (if calls[0].tx.ProcessReportOf? && Step(w, env, calls[0]).Ok? then DriftOf(w, calls[0].tx.id) else 0)
    + Drift(Apply(w, env, calls[0]), env, calls[1..])
  }

  lemma StepDrift(w: World, env: Env, call: Call, w': World, order: seq<Address>)
    requires Valid(w, env, order) && Admissible(env, call) && Step(w, env, call) == Ok(w')
    ensures Imbalance(w'.node) == Imbalance(w.node) + if call.tx.ProcessReportOf? then DriftOf(w, call.tx.id) else 0
  {
    if call.tx.ProcessReportOf? {
      ProcessedBooks(w, env.contracts, call.sender, call.tx.id, w');
    } else {
      StepBooks(w, env, call, w', NO_ADDRESS);
    }
  }

  lemma {:induction false} RunDrift(w: World, env: Env, calls: seq<Call>, order: seq<Address>)
    requires Valid(w, env, order) && AllAdmissible(env, calls)
    ensures Imbalance(Run(w, env, calls).node) == Imbalance(w.node) + Drift(w, env, calls)
    decreases |calls|
  {
    if calls != [] {
      assert Admissible(env, calls[0]);
      var w' := Apply(w, env, calls[0]);
      if Step(w, env, calls[0]).Ok? {
        StepDrift(w, env, calls[0], w', order);
        StepValid(w, env, calls[0], w', order);
        RunDrift(w', env, calls[1..], OrderAfter(order, calls[0]));
      } else {
        RunDrift(w', env, calls[1..], order);
      }
    }
  }

  /** After any run the accounts differ from the recorded supply by exactly what the processed reports moved
      on one side only. */
  lemma LedgerDrift(w: World, env: Env, calls: seq<Call>)
    requires Initial(w, env) && AllAdmissible(env, calls)
    ensures var st := Run(w, env, calls).node;
            Sum(st.balanceOf) + Sum(st.delegatesOf) + st.treasurySupply == st.totalSupply + Drift(w, env, calls)
  {
    InitialValid(w, env);
    SumEmpty(w.node.balanceOf);
    SumEmpty(w.node.delegatesOf);
    RunDrift(w, env, calls, []);
  }

  // ----- reports

  function Accepted(w: World, env: Env, call: Call): bool {
    call.tx.SubmitReport? && Step(w, env, call).Ok?
  }

  /** The heights of the reports accepted along a run. */
  function Heights(w: World, env: Env, calls: seq<Call>): seq<Uint256>
    decreases |calls|
  {
    if calls == [] then [] else
    (if Accepted(w, env, calls[0]) then [calls[0].tx.arguments.blockHeight] else [])
    + Heights(Apply(w, env, calls[0]), env, calls[1..])
  }

  /** How often a report was processed along a run. */
  function Processings(w: World, env: Env, calls: seq<Call>, id: Bytes): nat
    decreases |calls|
  {
    if calls == [] then 0 else
    (if calls[0].tx == ProcessReportOf(id) && Step(w, env, calls[0]).Ok? then 1 else 0)
    + Processings(Apply(w, env, calls[0]), env, calls[1..], id)
  }

  ghost predicate Increasing(s: seq<Uint256>) {
    forall i, j :: 0 <= i < j < |s| ==> s[i] < s[j]
  }

  lemma {:induction false} CapturesKeepReports(w: World, c: Contracts, entries: seq<Reports.StreamEntry>, w': World)
    requires CaptureStreams(w, c, entries) == Ok(w')
    ensures w'.reports == w.reports
    decreases |entries|
  {
    if entries != [] {
      CapturesKeepReports(CaptureStream(w, c, entries[0]).value, c, entries[1..], w');
    }
  }

  lemma {:induction false} ConsumersKeepReports(w: World, c: Contracts, entries: seq<Reports.ConsumerEntry>, w': World)
    requires CaptureConsumers(w, c, entries) == Ok(w')
    ensures w'.reports == w.reports
    decreases |entries|
  {
    if entries != [] {
      ConsumersKeepReports(CaptureConsumer(w, c, entries[0]).value, c, entries[1..], w');
    }
  }

  lemma ProcessReports(w: World, c: Contracts, sender: Address, id: Bytes, w': World)
    requires ProcessReport(w, c, sender, id) == Ok(w')
    ensures !ReportManager.ReportAt(w.reports, id).processed
    ensures w'.reports == ReportManager.MarkProcessed(w.reports, id)
  {
    var content := ReportManager.ReportAt(w.reports, id).content;
    var w1 := CaptureStreams(w, c, content.streams).value;
    CapturesKeepReports(w, c, content.streams, w1);
    ConsumersKeepReports(w1, c, content.consumers, CaptureConsumers(w1, c, content.consumers).value);
  }

  lemma SubmittedReports(w: World, env: Env, sender: Address, block: Block, p: Reports.Arguments, w': World, id: Bytes)
    requires Submit(w, env, sender, block, p) == Ok(w')
    ensures ReportManager.LastHeight(w.reports) < ReportManager.LastHeight(w'.reports) == p.blockHeight
    ensures ReportManager.ReportAt(w.reports, id).processed ==> ReportManager.ReportAt(w'.reports, id).processed
  {
    ReportManager.SubmitMovesForward(w.reports, NodeAddresses(w.node.list), IsStaked(w.node, sender), block, sender, p,
                                     env.recover, w'.reports, id);
  }

  lemma OtherwiseSameReports(w: World, env: Env, call: Call, w': World)
    requires Step(w, env, call) == Ok(w')
    requires !call.tx.SubmitReport? && !call.tx.ProcessReportOf?
    ensures w'.reports == w.reports.(reportTimeBuffer := w'.reports.reportTimeBuffer)
  {
  }

  lemma StepReports(w: World, env: Env, call: Call, w': World, id: Bytes)
    requires Step(w, env, call) == Ok(w')
    ensures if call.tx.SubmitReport? then
              ReportManager.LastHeight(w.reports) < ReportManager.LastHeight(w'.reports)
                   == call.tx.arguments.blockHeight
            else ReportManager.LastHeight(w'.reports) == ReportManager.LastHeight(w.reports)
    ensures ReportManager.ReportAt(w.reports, id).processed ==> ReportManager.ReportAt(w'.reports, id).processed
    ensures call.tx == ProcessReportOf(id) ==>
              !ReportManager.ReportAt(w.reports, id).processed && ReportManager.ReportAt(w'.reports, id).processed
  {
    match call.tx
    case ProcessReportOf(id') => ProcessReports(w, env.contracts, call.sender, id', w');
    case SubmitReport(p) => SubmittedReports(w, env, call.sender, call.block, p, w', id);
    case _ => OtherwiseSameReports(w, env, call, w');
  }

  lemma {:induction false} RunHeights(w: World, env: Env, calls: seq<Call>)
    ensures Increasing(Heights(w, env, calls))
    ensures forall i :: 0 <= i < |Heights(w, env, calls)| ==>
                Heights(w, env, calls)[i] > ReportManager.LastHeight(w.reports)
    decreases |calls|
  {
    if calls != [] {
      var w' := Apply(w, env, calls[0]);
      if Step(w, env, calls[0]).Ok? {
        StepReports(w, env, calls[0], w', []);
      }
      RunHeights(w', env, calls[1..]);
    }
  }

  lemma {:induction false} RunProcessed(w: World, env: Env, calls: seq<Call>, id: Bytes)
    ensures ReportManager.ReportAt(w.reports, id).processed ==>
              ReportManager.ReportAt(Run(w, env, calls).reports, id).processed && Processings(w, env, calls, id) == 0
    ensures Processings(w, env, calls, id) <= 1
    decreases |calls|
  {
    if calls != [] {
      var w' := Apply(w, env, calls[0]);
      if Step(w, env, calls[0]).Ok? {
        StepReports(w, env, calls[0], w', id);
      }
      RunProcessed(w', env, calls[1..], id);
    }
  }

  /** Along every run the accepted heights strictly increase, a processed report stays processed, and no
      report is processed twice. */
  lemma ReportsMoveForward(w: World, env: Env, calls: seq<Call>, id: Bytes)
    ensures Increasing(Heights(w, env, calls))
    ensures Processings(w, env, calls, id) <= 1
    ensures ReportManager.ReportAt(w.reports, id).processed ==>
                ReportManager.ReportAt(Run(w, env, calls).reports, id).processed
  {
    RunHeights(w, env, calls);
    RunProcessed(w, env, calls, id);
  }

  /** An id that no report has passes for an unprocessed one: exactly the staked accounts can process it. */
  lemma UnknownProcessedIff(w: World, c: Contracts, sender: Address, id: Bytes)
    requires id !in w.reports.reports
    ensures ProcessReport(w, c, sender, id).Ok? <==> IsStaked(w.node, sender)
    ensures ProcessReport(w, c, sender, id).Ok? ==>
              ReportManager.ReportAt(ProcessReport(w, c, sender, id).value.reports, id).processed
  {
  }

  /** Once an id is processed, no report with that id is accepted along any run. */
  lemma ProcessedNeverAccepted(w: World, env: Env, calls: seq<Call>, call: Call)
    requires call.tx.SubmitReport? && ReportManager.ReportAt(w.reports, call.tx.arguments.id).processed
    ensures !Accepted(Run(w, env, calls), env, call)
  {
    RunProcessed(w, env, calls, call.tx.arguments.id);
  }

  /** So a staked account can block an id for good before anybody reports it. */
  lemma UnknownIdBlocked(w: World, env: Env, process: Call, calls: seq<Call>, call: Call)
    requires process.tx.ProcessReportOf? && process.tx.id !in w.reports.reports && IsStaked(w.node, process.sender)
    requires call.tx.SubmitReport? && call.tx.arguments.id == process.tx.id
    ensures Step(w, env, process).Ok?
    ensures !Accepted(Run(Apply(w, env, process), env, calls), env, call)
  {
    UnknownProcessedIff(w, env.contracts, process.sender, process.tx.id);
    ProcessedNeverAccepted(Apply(w, env, process), env, calls, call);
  }

  /** A report accepted after any run comes from the staked node whose turn it is, and the proofs stored with it
      are exactly the verified ones, in rank order, by distinct registered nodes, at least half of all. */
  lemma AcceptedInRun(w: World, env: Env, calls: seq<Call>, call: Call)
    requires Initial(w, env) && AllAdmissible(env, calls) && call.tx.SubmitReport?
    requires Accepted(Run(w, env, calls), env, call)
    ensures Reports.ContentOf(call.tx.arguments).Ok?
    ensures var w1, p := Run(w, env, calls), call.tx.arguments;
            var members := Members(w, env, calls, []);
            var reporters := Ranking.Ranked(members, w1.reports.reputationOf);
            var pack := Reports.PackContent(Reports.ContentOf(p).value);
            var proofs := ReportManager.ProofsAt(Step(w1, env, call).value.reports, p.id);
            && proofs == Consensus.BackedBy(reporters, p, pack, env.recover)
            && Consensus.Sound(proofs, reporters, p, pack, env.recover)
            && (forall x :: x in reporters <==> x in members)
            && 2 * |proofs| >= |members|
            && IsStaked(w1.node, call.sender) && call.sender in members
            && ReportManager.OnTurn(reporters, w1.reports, call.block, call.sender, p)
  {
    var w1 := Run(w, env, calls);
    var members := Members(w, env, calls, []);
    InitialValid(w, env);
    RunValid(w, env, calls, []);
    NodeAddressesInOrder(w1.node.list, members);
    ReportManager.AcceptedReport(w1.reports, members, IsStaked(w1.node, call.sender), call.block, call.sender,
                                 call.tx.arguments, env.recover, Step(w1, env, call).value.reports);
    forall x: Address ensures x in Ranking.Ranked(members, w1.reports.reputationOf) <==> x in members {
      Ranking.RankedIn(members, w1.reports.reputationOf, x);
    }
  }

  // ----- joining and leaving

  /** The same word in every storage slot of the node manager and the token. */
  ghost predicate SameStorage(f: Funds, f': Funds) {
    && f'.node == f.node.(list := f'.node.list, balanceOf := f'.node.balanceOf, delegatesOf := f'.node.delegatesOf)
    && f'.node.list == f.node.list.(nodes := f'.node.list.nodes)
    && (forall a: Address :: At(f'.node.list.nodes, a) == At(f.node.list.nodes, a))
    && (forall a: Address :: Get(f'.node.balanceOf, a) == Get(f.node.balanceOf, a))
    && (forall k: (Address, Address) :: Get(f'.node.delegatesOf, k) == Get(f.node.delegatesOf, k))
    && (forall a: Address :: Get(f'.ledger, a) == Get(f.ledger, a))
  }

  /** An account that the node manager knows nothing about. */
  ghost predicate Fresh(st: NodeManager.State, a: Address) {
    && At(st.list.nodes, a) == UNSET
    && Get(st.balanceOf, a) == 0 && Get(st.delegatesOf, (a, a)) == 0
    && a !in st.permitted
  }

  /** The node manager after a fresh account joined with `amount`, `list` being the list with it. */
  ghost predicate Joined(f: Funds, self: Address, sender: Address, amount: Uint256, list: List, f1: Funds) {
    && 0 < amount <= f1.node.totalSupply
    && f1.node == f.node.(totalSupply := f1.node.totalSupply, balanceOf := f1.node.balanceOf,
                          delegatesOf := f1.node.delegatesOf, list := f1.node.list, permitted := f1.node.permitted)
    && f1.node.totalSupply == f.node.totalSupply + amount
    && f1.node.balanceOf == f.node.balanceOf[sender := amount][sender := 0]
    && f1.node.delegatesOf == f.node.delegatesOf[(sender, sender) := amount]
    && f1.node.list == WithStake(list, sender, amount)
    && f1.node.permitted - {sender} == f.node.permitted - {sender}
    && Transfer(f.ledger, sender, self, amount) == Ok(f1.ledger)
  }

  lemma StakeDelegateFresh(f: Funds, self: Address, sender: Address, amount: Uint256, f1: Funds)
    requires sender != self && StakeOf(f.node, sender) == 0
    requires Get(f.node.balanceOf, sender) == 0 && Get(f.node.delegatesOf, (sender, sender)) == 0
    requires StakeAndDelegate(f, self, sender, amount, sender) == Ok(f1)
    ensures Joined(f, self, sender, amount, f.node.list, f1)
  {
  }

  lemma JoinFresh(f: Funds, self: Address, block: Block, sender: Address, amount: Uint256, metadata: Bytes, f1: Funds)
    requires sender != self && Fresh(f.node, sender)
    requires Join(f, self, block, sender, amount, metadata) == Ok(f1)
    ensures Upsert(f.node.list, block, sender, metadata).Ok?
    ensures Joined(f, self, sender, amount, Upsert(f.node.list, block, sender, metadata).value, f1)
  {
    UpsertStake(f.node.list, block, sender, metadata, sender);
    var st := UpsertOwn(f.node, block, sender, metadata).value;
    StakeDelegateFresh(Funds(st, f.ledger), self, sender, amount, f1);
  }

  lemma LeaveJoined(f: Funds, self: Address, sender: Address, amount: Uint256, list: List, f1: Funds,
                    st: NodeManager.State, f2: Funds)
    requires sender != self && f.node.stakeRequiredAmount > 0 && Joined(f, self, sender, amount, list, f1)
    requires At(list.nodes, sender).lastSeen > 0
    requires st == f1.node.(balanceOf := f1.node.balanceOf[sender := amount],
                            delegatesOf := f1.node.delegatesOf[(sender, sender) := 0],
                            list := WithStake(f1.node.list, sender, 0),
                            permitted := f1.node.permitted - {sender})
    requires f2.node == st.(balanceOf := st.balanceOf[sender := 0], totalSupply := st.totalSupply - amount)
    requires Transfer(f1.ledger, self, sender, amount) == Ok(f2.ledger)
    ensures Leave(f1, self, sender) == (match RemoveNode(f2.node, sender)
                                        case Ok(left) => Ok(Funds(left, f2.ledger))
                                        case Revert(why) => Revert(why))
  {
    assert Undelegate(f1.node, sender, amount, sender) == Ok(st);
    assert Withdraw(Funds(st, f1.ledger), self, sender, amount) == Ok(f2);
  }

  lemma LeaveRestores(f: Funds, self: Address, block: Block, sender: Address, amount: Uint256, metadata: Bytes,
                      list: List, f1: Funds, order: seq<Address>)
    requires sender != NO_ADDRESS && sender != self && block.timestamp > 0
    requires Represents(f.node.list, order) && f.node.stakeRequiredAmount > 0 && Fresh(f.node, sender)
    requires Upsert(f.node.list, block, sender, metadata) == Ok(list)
    requires Joined(f, self, sender, amount, list, f1)
    ensures Leave(f1, self, sender).Ok?
    ensures SameStorage(f, Leave(f1, self, sender).value)
  {
    AppendedAt(f.node.list, order, block, sender, metadata, list);
    var st := f1.node.(balanceOf := f1.node.balanceOf[sender := amount],
                       delegatesOf := f1.node.delegatesOf[(sender, sender) := 0],
                       list := WithStake(f1.node.list, sender, 0),
                       permitted := f1.node.permitted - {sender});
    var ledger := Transfer(f1.ledger, self, sender, amount).value;
    var f2 := Funds(st.(balanceOf := st.balanceOf[sender := 0], totalSupply := st.totalSupply - amount), ledger);
    LeaveJoined(f, self, sender, amount, list, f1, st, f2);
    assert SameNodes(list.nodes, f2.node.list.nodes);
    AppendThenRemove(f.node.list, order, block, sender, metadata, list, f2.node.list);
    SameFunds(f, self, sender, amount, list, f1, f2, RemoveNode(f2.node, sender).value);
  }

  lemma SameFunds(f: Funds, self: Address, sender: Address, amount: Uint256, list: List, f1: Funds, f2: Funds,
                  left: NodeManager.State)
    requires sender != self && Fresh(f.node, sender) && Joined(f, self, sender, amount, list, f1)
    requires Transfer(f1.ledger, self, sender, amount) == Ok(f2.ledger)
    requires left == f.node.(balanceOf := f1.node.balanceOf[sender := amount][sender := 0],
                             delegatesOf := f1.node.delegatesOf[(sender, sender) := 0],
                             list := left.list,
                             permitted := f1.node.permitted - {sender})
    requires left.list == f.node.list.(nodes := left.list.nodes) && SameNodes(f.node.list.nodes, left.list.nodes)
    ensures SameStorage(f, Funds(left, f2.ledger))
  {
    assert f.node.permitted == f.node.permitted - {sender};
  }

  /** A fresh account that joins and leaves again gets its tokens back, and every storage slot of the node
      manager and of the token ends up as it was: ledger, permissions and list. */
  lemma JoinThenLeave(f: Funds, self: Address, block: Block, sender: Address, amount: Uint256, metadata: Bytes,
                      f1: Funds, order: seq<Address>)
    requires sender != NO_ADDRESS && sender != self && block.timestamp > 0
    requires Represents(f.node.list, order) && f.node.stakeRequiredAmount > 0 && Fresh(f.node, sender)
    requires Join(f, self, block, sender, amount, metadata) == Ok(f1)
    ensures Leave(f1, self, sender).Ok?
    ensures SameStorage(f, Leave(f1, self, sender).value)
  {
    JoinFresh(f, self, block, sender, amount, metadata, f1);
    LeaveRestores(f, self, block, sender, amount, metadata,
                  Upsert(f.node.list, block, sender, metadata).value, f1, order);
  }
}
