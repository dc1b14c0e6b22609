/** LogStoreNodeManager.processReport: capture the fees, then apply the reported changes. */
module Settlement {
  import opened Evm
  import opened Mappings
  import opened NodeManager
  import opened Registry
  import opened Reports
  import opened Token

  import Queries
  import ReportManager
  import Stores

  /** The addresses of the deployed contracts and of their owner. */
  datatype Contracts = Contracts(owner: Address, nodeManager: Address, storeManager: Address, queryManager: Address)

  /** The storage of all the contracts. */
  datatype World = World(
    ledger: Ledger, node: NodeManager.State, stores: Stores.State, queries: Queries.State, reports: ReportManager.State
  )

  // ----- fees

  function CaptureStream(w: World, c: Contracts, e: StreamEntry): Outcome<World> {
    if e.writeBytes == 0 then Ok(w) else
    var (stores, ledger) :- Stores.Capture(w.stores, w.ledger, c.storeManager, c.nodeManager, c.nodeManager,
                                           e.id, e.writeCapture);
    var supply :- Add(w.node.totalSupply, e.writeCapture);
    Ok(w.(stores := stores, ledger := ledger, node := w.node.(totalSupply := supply)))
  }

  function CaptureStreams(w: World, c: Contracts, entries: seq<StreamEntry>): Outcome<World>
    decreases |entries|
  {
    if entries == [] then Ok(w) else
    var w' :- CaptureStream(w, c, entries[0]);
    CaptureStreams(w', c, entries[1..])
  }

  function CaptureConsumer(w: World, c: Contracts, e: ConsumerEntry): Outcome<World> {
    if e.readBytes == 0 then Ok(w) else
    var (queries, ledger) :- Queries.Capture(w.queries, w.ledger, c.queryManager, c.nodeManager, c.nodeManager,
                                             e.id, e.readCapture);
    var supply :- Add(w.node.totalSupply, e.readCapture);
    Ok(w.(queries := queries, ledger := ledger, node := w.node.(totalSupply := supply)))
  }

  function CaptureConsumers(w: World, c: Contracts, entries: seq<ConsumerEntry>): Outcome<World>
    decreases |entries|
  {
    if entries == [] then Ok(w) else
    var w' :- CaptureConsumer(w, c, entries[0]);
    CaptureConsumers(w', c, entries[1..])
  }

  // ----- changes

  /** A balance after a signed change: clamped at zero, and read through an unchecked cast. */
  function Adjusted(u: Uint256, change: Int256): Outcome<Uint256> {
    var sum :- AddSigned(AsInt256(u), change);
    Ok(if sum > 0 then sum else 0)
  }

  function AdjustNodes(st: NodeManager.State, entries: seq<NodeEntry>): Outcome<NodeManager.State>
    decreases |entries|
  {
    if entries == [] then Ok(st) else
    var stake :- Adjusted(StakeOf(st, entries[0].id), entries[0].amount);
    AdjustNodes(SetStake(st, entries[0].id, stake), entries[1..])
  }

  type Delegations = map<(Address, Address), Uint256>

  function AdjustDelegate(m: Delegations, delegate: Address, entries: seq<NodeEntry>): Outcome<Delegations>
    decreases |entries|
  {
    if entries == [] then Ok(m) else
    var k := (delegate, entries[0].id);
    var amount :- Adjusted(Get(m, k), entries[0].amount);
    AdjustDelegate(m[k := amount], delegate, entries[1..])
  }

  function AdjustDelegates(m: Delegations, entries: seq<DelegateEntry>): Outcome<Delegations>
    decreases |entries|
  {
    if entries == [] then Ok(m) else
    var m' :- AdjustDelegate(m, entries[0].id, entries[0].nodes);
    AdjustDelegates(m', entries[1..])
  }

  function ApplyChanges(st: NodeManager.State, report: Report): Outcome<NodeManager.State> {
    var adjusted :- AdjustNodes(st, report.content.nodes);
    var delegations :- AdjustDelegates(adjusted.delegatesOf, report.content.delegates);
    var treasury :- Adjusted(adjusted.treasurySupply, report.treasury);
    Ok(adjusted.(delegatesOf := delegations, treasurySupply := treasury))
  }

  function ProcessReport(w: World, c: Contracts, sender: Address, id: Bytes): Outcome<World> {
    var _ :- Require(IsStaked(w.node, sender), "error_stakeRequired");
    var report := ReportManager.ReportAt(w.reports, id);
    var _ :- Require(!report.processed, "error_reportAlreadyProcessed");
    var streamed :- CaptureStreams(w, c, report.content.streams);
    var captured :- CaptureConsumers(streamed, c, report.content.consumers);
    var node :- ApplyChanges(captured.node, report);
    Ok(captured.(node := node, reports := ReportManager.MarkProcessed(captured.reports, id)))
  }

  // ----- solvency

  ghost predicate Separate(c: Contracts) {
    && c.nodeManager != c.storeManager && c.nodeManager != c.queryManager && c.storeManager != c.queryManager
    && c.owner != c.nodeManager && c.owner != c.storeManager && c.owner != c.queryManager
  }

  /** Both escrows hold what they owe, and the node manager is short of its recorded supply by exactly
      what captures asked for beyond the stake behind them. */
  ghost predicate Solvent(w: World, c: Contracts) {
    && Stores.Valid(w.stores, Get(w.ledger, c.storeManager))
    && Queries.Valid(w.queries, Get(w.ledger, c.queryManager))
    && w.node.totalSupply - Get(w.ledger, c.nodeManager) == w.stores.captureOverflow + w.queries.captureOverflow
  }

  /** The fees of a report: its captures with bytes to their name. */
  function StreamFees(entries: seq<StreamEntry>): nat {
    if entries == [] then 0 else
    (if entries[0].writeBytes == 0 then 0 else entries[0].writeCapture) + StreamFees(entries[1..])
  }

  function ConsumerFees(entries: seq<ConsumerEntry>): nat {
    if entries == [] then 0 else
    (if entries[0].readBytes == 0 then 0 else entries[0].readCapture) + ConsumerFees(entries[1..])
  }

  /** Capturing leaves everything of the node manager alone but its recorded supply. */
  ghost predicate OnlySupply(w: World, w': World, fees: nat) {
    && w'.node == w.node.(totalSupply := w'.node.totalSupply)
    && w'.node.totalSupply == w.node.totalSupply + fees
    && w'.reports == w.reports
  }

  lemma CaptureStreamSolvent(w: World, c: Contracts, e: StreamEntry, w': World)
    requires Separate(c) && Solvent(w, c) && CaptureStream(w, c, e) == Ok(w')
    ensures Solvent(w', c)
    ensures OnlySupply(w, w', if e.writeBytes == 0 then 0 else e.writeCapture)
  {
    if e.writeBytes != 0 {
      Stores.CaptureValid(w.stores, w.ledger, c.storeManager, c.nodeManager, e.id, e.writeCapture);
    }
  }

  lemma {:induction false} CaptureStreamsSolvent(w: World, c: Contracts, entries: seq<StreamEntry>, w': World)
    requires Separate(c) && Solvent(w, c) && CaptureStreams(w, c, entries) == Ok(w')
    ensures Solvent(w', c) && OnlySupply(w, w', StreamFees(entries))
    decreases |entries|
  {
    if entries != [] {
      var w1 := CaptureStream(w, c, entries[0]).value;
      CaptureStreamSolvent(w, c, entries[0], w1);
      CaptureStreamsSolvent(w1, c, entries[1..], w');
    }
  }

  lemma CaptureConsumerSolvent(w: World, c: Contracts, e: ConsumerEntry, w': World)
    requires Separate(c) && Solvent(w, c) && CaptureConsumer(w, c, e) == Ok(w')
    ensures Solvent(w', c)
    ensures OnlySupply(w, w', if e.readBytes == 0 then 0 else e.readCapture)
  {
    if e.readBytes != 0 {
      Queries.CaptureValid(w.queries, w.ledger, c.queryManager, c.nodeManager, e.id, e.readCapture);
    }
  }

  lemma {:induction false} CaptureConsumersSolvent(w: World, c: Contracts, entries: seq<ConsumerEntry>, w': World)
    requires Separate(c) && Solvent(w, c) && CaptureConsumers(w, c, entries) == Ok(w')
    ensures Solvent(w', c) && OnlySupply(w, w', ConsumerFees(entries))
    decreases |entries|
  {
    if entries != [] {
      var w1 := CaptureConsumer(w, c, entries[0]).value;
      CaptureConsumerSolvent(w, c, entries[0], w1);
      CaptureConsumersSolvent(w1, c, entries[1..], w');
    }
  }

  // ----- the effect of the changes on the books

  /** What `Adjusted` adds beyond the change itself: the shortfall it clamps away, and the wrap-around of
      a balance too large for the cast. */
  function Correction(u: Uint256, change: Int256): int {
    (if AsInt256(u) + change > 0 then 0 else -(AsInt256(u) + change)) - (if u > INT256_MAX then UINT256_MAX + 1 else 0)
  }

  lemma AdjustedExact(u: Uint256, change: Int256, v: Uint256)
    requires Adjusted(u, change) == Ok(v)
    ensures v == u + change + Correction(u, change)
    ensures u <= INT256_MAX ==> v == if u + change > 0 then u + change else 0
    ensures Correction(u, change) == 0 <==> u <= INT256_MAX && u + change >= 0
  {
  }

  function NodeChanges(entries: seq<NodeEntry>): int {
    if entries == [] then 0 else entries[0].amount + NodeChanges(entries[1..])
  }

  function DelegateChanges(entries: seq<DelegateEntry>): int {
    if entries == [] then 0 else NodeChanges(entries[0].nodes) + DelegateChanges(entries[1..])
  }

  /** The corrections met on the way, entry by entry. */
  function DelegateCorrections(m: Delegations, delegate: Address, entries: seq<NodeEntry>): int
    requires AdjustDelegate(m, delegate, entries).Ok?
    decreases |entries|
  {
    if entries == [] then 0 else
    var k := (delegate, entries[0].id);
    Correction(Get(m, k), entries[0].amount)
    + DelegateCorrections(m[k := Adjusted(Get(m, k), entries[0].amount).value], delegate, entries[1..])
  }

  function Corrections(m: Delegations, entries: seq<DelegateEntry>): int
    requires AdjustDelegates(m, entries).Ok?
    decreases |entries|
  {
    if entries == [] then 0 else
    DelegateCorrections(m, entries[0].id, entries[0].nodes)
    + Corrections(AdjustDelegate(m, entries[0].id, entries[0].nodes).value, entries[1..])
  }

  lemma {:induction false} AdjustDelegateSum(m: Delegations, delegate: Address, entries: seq<NodeEntry>)
    requires AdjustDelegate(m, delegate, entries).Ok?
    ensures Sum(AdjustDelegate(m, delegate, entries).value)
         == Sum(m) + NodeChanges(entries) + DelegateCorrections(m, delegate, entries)
    decreases |entries|
  {
    if entries != [] {
      var k := (delegate, entries[0].id);
      var amount := Adjusted(Get(m, k), entries[0].amount).value;
      AdjustedExact(Get(m, k), entries[0].amount, amount);
      SumPut(m, k, amount);
      AdjustDelegateSum(m[k := amount], delegate, entries[1..]);
    }
  }

  lemma {:induction false} AdjustDelegatesSum(m: Delegations, entries: seq<DelegateEntry>)
    requires AdjustDelegates(m, entries).Ok?
    ensures Sum(AdjustDelegates(m, entries).value) == Sum(m) + DelegateChanges(entries) + Corrections(m, entries)
    decreases |entries|
  {
    if entries != [] {
      AdjustDelegateSum(m, entries[0].id, entries[0].nodes);
      AdjustDelegatesSum(AdjustDelegate(m, entries[0].id, entries[0].nodes).value, entries[1..]);
    }
  }

  /** Node changes touch stakes and permissions only, and leave the permissions in line. */
  lemma {:induction false} AdjustNodesKeeps(st: NodeManager.State, entries: seq<NodeEntry>, st': NodeManager.State)
    requires AdjustNodes(st, entries) == Ok(st')
    ensures st' == st.(list := st'.list, permitted := st'.permitted)
    ensures AccessInLine(st) ==> AccessInLine(st')
    decreases |entries|
  {
    if entries != [] {
      var stake := Adjusted(StakeOf(st, entries[0].id), entries[0].amount).value;
      AdjustNodesKeeps(SetStake(st, entries[0].id, stake), entries[1..], st');
    }
  }

  lemma {:induction false} AdjustNodesList(st: NodeManager.State, entries: seq<NodeEntry>, st': NodeManager.State,
                                           order: seq<Address>)
    requires AdjustNodes(st, entries) == Ok(st') && Represents(st.list, order)
    ensures Represents(st'.list, order)
    decreases |entries|
  {
    if entries != [] {
      var stake := Adjusted(StakeOf(st, entries[0].id), entries[0].amount).value;
      StakeRepresents(st.list, order, entries[0].id, stake);
      AdjustNodesList(SetStake(st, entries[0].id, stake), entries[1..], st', order);
    }
  }

  /** Processing a report moves the accounts by exactly the reported delegate and treasury changes plus
      their corrections, and the recorded supply by exactly the fees. */
  lemma ProcessedBooks(w: World, c: Contracts, sender: Address, id: Bytes, w': World)
    requires Separate(c) && Solvent(w, c) && ProcessReport(w, c, sender, id) == Ok(w')
    ensures var report := ReportManager.ReportAt(w.reports, id);
            && AdjustDelegates(w.node.delegatesOf, report.content.delegates).Ok?
            && w'.node.balanceOf == w.node.balanceOf
            && Sum(w'.node.delegatesOf) == Sum(w.node.delegatesOf) + DelegateChanges(report.content.delegates)
                                         + Corrections(w.node.delegatesOf, report.content.delegates)
            && w'.node.treasurySupply == w.node.treasurySupply + report.treasury
                                       + Correction(w.node.treasurySupply, report.treasury)
            && w'.node.totalSupply == w.node.totalSupply
                                    + StreamFees(report.content.streams) + ConsumerFees(report.content.consumers)
  {
    var report := ReportManager.ReportAt(w.reports, id);
    var w1 := CaptureStreams(w, c, report.content.streams).value;
    var w2 := CaptureConsumers(w1, c, report.content.consumers).value;
    CaptureStreamsSolvent(w, c, report.content.streams, w1);
    CaptureConsumersSolvent(w1, c, report.content.consumers, w2);
    AdjustNodesKeeps(w2.node, report.content.nodes, AdjustNodes(w2.node, report.content.nodes).value);
    AdjustDelegatesSum(w.node.delegatesOf, report.content.delegates);
    AdjustedExact(w.node.treasurySupply, report.treasury, w'.node.treasurySupply);
  }

  lemma ProcessedSolvent(w: World, c: Contracts, sender: Address, id: Bytes, w': World)
    requires Separate(c) && Solvent(w, c) && ProcessReport(w, c, sender, id) == Ok(w')
    ensures Solvent(w', c)
    ensures AccessInLine(w.node) ==> AccessInLine(w'.node)
    ensures w'.reports == ReportManager.MarkProcessed(w.reports, id)
    ensures !ReportManager.ReportAt(w.reports, id).processed
  {
    var report := ReportManager.ReportAt(w.reports, id);
    var w1 := CaptureStreams(w, c, report.content.streams).value;
    var w2 := CaptureConsumers(w1, c, report.content.consumers).value;
    CaptureStreamsSolvent(w, c, report.content.streams, w1);
    CaptureConsumersSolvent(w1, c, report.content.consumers, w2);
    AdjustNodesKeeps(w2.node, report.content.nodes, AdjustNodes(w2.node, report.content.nodes).value);
  }

  lemma ProcessedList(w: World, c: Contracts, sender: Address, id: Bytes, w': World, order: seq<Address>)
    requires Separate(c) && Solvent(w, c) && ProcessReport(w, c, sender, id) == Ok(w')
    requires Represents(w.node.list, order)
    ensures Represents(w'.node.list, order)
  {
    var report := ReportManager.ReportAt(w.reports, id);
    var w1 := CaptureStreams(w, c, report.content.streams).value;
    var w2 := CaptureConsumers(w1, c, report.content.consumers).value;
    CaptureStreamsSolvent(w, c, report.content.streams, w1);
    CaptureConsumersSolvent(w1, c, report.content.consumers, w2);
    AdjustNodesList(w2.node, report.content.nodes, AdjustNodes(w2.node, report.content.nodes).value, order);
  }
}
