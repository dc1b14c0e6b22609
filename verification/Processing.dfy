/** Exactly which reports can be processed. */
module Processing {
  import opened Evm
  import opened Mappings
  import opened NodeManager
  import opened Protocol
  import opened Registry
  import opened Reports
  import opened Settlement

  import Queries
  import ReportManager
  import Stores
  import Token

  // ----- stream fees

  /** What a stream's stake comes to once the captures of `entries` are done. */
  function StreamLeft(stored: Uint256, entries: seq<StreamEntry>, stream: Bytes): Uint256
    decreases |entries|
  {
    if entries == [] then stored else
    var e := entries[0];
    StreamLeft(if e.writeBytes > 0 && e.id == stream then Stores.SubClamped(stored, e.writeCapture) else stored,
               entries[1..], stream)
  }

  /** Every stream with bytes still has stake when its turn comes. */
  ghost predicate StreamsFunded(stores: map<Bytes, Uint256>, entries: seq<StreamEntry>) {
    forall i :: 0 <= i < |entries| && entries[i].writeBytes > 0 ==>
      StreamLeft(Get(stores, entries[i].id), entries[..i], entries[i].id) > 0
  }

  function StoresAfter(stores: map<Bytes, Uint256>, e: StreamEntry): map<Bytes, Uint256> {
    if e.writeBytes > 0 then stores[e.id := Stores.SubClamped(Get(stores, e.id), e.writeCapture)] else stores
  }

  lemma StreamsFundedStep(stores: map<Bytes, Uint256>, entries: seq<StreamEntry>)
    requires entries != []
    ensures StreamsFunded(stores, entries)
       <==> && (entries[0].writeBytes > 0 ==> Get(stores, entries[0].id) > 0)
            && StreamsFunded(StoresAfter(stores, entries[0]), entries[1..])
  {
    var stores', rest := StoresAfter(stores, entries[0]), entries[1..];
    forall i | 1 <= i < |entries|
      ensures StreamLeft(Get(stores, entries[i].id), entries[..i], entries[i].id)
           == StreamLeft(Get(stores', rest[i - 1].id), rest[..i - 1], rest[i - 1].id)
    {
      assert entries[..i][1..] == rest[..i - 1];
    }
    assert StreamLeft(Get(stores, entries[0].id), entries[..0], entries[0].id) == Get(stores, entries[0].id);
    if StreamsFunded(stores, entries) {
      forall i | 0 <= i < |rest| && rest[i].writeBytes > 0
        ensures StreamLeft(Get(stores', rest[i].id), rest[..i], rest[i].id) > 0
      {
        assert entries[i + 1] == rest[i];
      }
    }
  }

  lemma CaptureStreamIff(w: World, c: Contracts, e: StreamEntry)
    requires Separate(c) && Solvent(w, c)
    ensures CaptureStream(w, c, e).Ok?
       <==> e.writeBytes > 0 ==> Get(w.stores.stores, e.id) > 0 && w.node.totalSupply + e.writeCapture <= UINT256_MAX
  {
    if e.writeBytes > 0 {
      Stores.CaptureSucceeds(w.stores, w.ledger, c.storeManager, c.nodeManager, e.id, e.writeCapture);
    }
  }

  lemma CapturedStores(w: World, c: Contracts, e: StreamEntry, w': World)
    requires Separate(c) && Solvent(w, c) && CaptureStream(w, c, e) == Ok(w')
    ensures w'.stores.stores == StoresAfter(w.stores.stores, e)
  {
    if e.writeBytes > 0 {
      TakenOff(w.stores, w.ledger, c.storeManager, c.nodeManager, e.id, e.writeCapture);
    }
  }

  lemma TakenOff(st: Stores.State, ledger: Token.Ledger, self: Address, parent: Address, stream: Bytes, amount: Uint256)
    requires Stores.Balanced(st) && Stores.Backed(st)
    requires Stores.Capture(st, ledger, self, parent, parent, stream, amount).Ok?
    ensures Stores.Capture(st, ledger, self, parent, parent, stream, amount).value.0.stores
         == st.stores[stream := Stores.SubClamped(Get(st.stores, stream), amount)]
  {
    Stores.CaptureStakeKeeps(st, stream, amount);
  }

  lemma {:induction false} CaptureStreamsIff(w: World, c: Contracts, entries: seq<StreamEntry>)
    requires Separate(c) && Solvent(w, c)
    ensures CaptureStreams(w, c, entries).Ok?
       <==> StreamsFunded(w.stores.stores, entries) && w.node.totalSupply + StreamFees(entries) <= UINT256_MAX
    decreases |entries|
  {
    if entries != [] {
      StreamsFundedStep(w.stores.stores, entries);
      CaptureStreamIff(w, c, entries[0]);
      if CaptureStream(w, c, entries[0]).Ok? {
        var w' := CaptureStream(w, c, entries[0]).value;
        CaptureStreamSolvent(w, c, entries[0], w');
        CapturedStores(w, c, entries[0], w');
        CaptureStreamsIff(w', c, entries[1..]);
      }
    }
  }

  // ----- consumer fees

  function BalanceLeft(balance: Uint256, entries: seq<ConsumerEntry>, consumer: Address): Uint256
    decreases |entries|
  {
    if entries == [] then balance else
    var e := entries[0];
    BalanceLeft(if e.readBytes > 0 && e.id == consumer then Stores.SubClamped(balance, e.readCapture) else balance,
                entries[1..], consumer)
  }

  ghost predicate ConsumersFunded(balances: map<Address, Uint256>, entries: seq<ConsumerEntry>) {
    forall i :: 0 <= i < |entries| && entries[i].readBytes > 0 ==>
      BalanceLeft(Get(balances, entries[i].id), entries[..i], entries[i].id) > 0
  }

  function BalancesAfter(balances: map<Address, Uint256>, e: ConsumerEntry): map<Address, Uint256> {
    if e.readBytes > 0 then balances[e.id := Stores.SubClamped(Get(balances, e.id), e.readCapture)] else balances
  }

  lemma ConsumersFundedStep(balances: map<Address, Uint256>, entries: seq<ConsumerEntry>)
    requires entries != []
    ensures ConsumersFunded(balances, entries)
       <==> && (entries[0].readBytes > 0 ==> Get(balances, entries[0].id) > 0)
            && ConsumersFunded(BalancesAfter(balances, entries[0]), entries[1..])
  {
    var balances', rest := BalancesAfter(balances, entries[0]), entries[1..];
    forall i | 1 <= i < |entries|
      ensures BalanceLeft(Get(balances, entries[i].id), entries[..i], entries[i].id)
           == BalanceLeft(Get(balances', rest[i - 1].id), rest[..i - 1], rest[i - 1].id)
    {
      assert entries[..i][1..] == rest[..i - 1];
    }
    assert BalanceLeft(Get(balances, entries[0].id), entries[..0], entries[0].id) == Get(balances, entries[0].id);
    if ConsumersFunded(balances, entries) {
      forall i | 0 <= i < |rest| && rest[i].readBytes > 0
        ensures BalanceLeft(Get(balances', rest[i].id), rest[..i], rest[i].id) > 0
      {
        assert entries[i + 1] == rest[i];
      }
    }
  }

  lemma CaptureConsumerIff(w: World, c: Contracts, e: ConsumerEntry)
    requires Separate(c) && Solvent(w, c)
    ensures CaptureConsumer(w, c, e).Ok?
       <==> e.readBytes > 0 ==> Get(w.queries.balanceOf, e.id) > 0 && w.node.totalSupply + e.readCapture <= UINT256_MAX
    ensures CaptureConsumer(w, c, e).Ok? ==>
              CaptureConsumer(w, c, e).value.queries.balanceOf == BalancesAfter(w.queries.balanceOf, e)
  {
    if e.readBytes > 0 {
      Queries.CaptureSucceeds(w.queries, w.ledger, c.queryManager, c.nodeManager, e.id, e.readCapture);
    }
  }

  lemma {:induction false} CaptureConsumersIff(w: World, c: Contracts, entries: seq<ConsumerEntry>)
    requires Separate(c) && Solvent(w, c)
    ensures CaptureConsumers(w, c, entries).Ok?
       <==> ConsumersFunded(w.queries.balanceOf, entries) && w.node.totalSupply + ConsumerFees(entries) <= UINT256_MAX
    decreases |entries|
  {
    if entries != [] {
      ConsumersFundedStep(w.queries.balanceOf, entries);
      CaptureConsumerIff(w, c, entries[0]);
      if CaptureConsumer(w, c, entries[0]).Ok? {
        var w' := CaptureConsumer(w, c, entries[0]).value;
        CaptureConsumerSolvent(w, c, entries[0], w');
        CaptureConsumersIff(w', c, entries[1..]);
      }
    }
  }

  lemma {:induction false} StreamsKeepQueries(w: World, c: Contracts, entries: seq<StreamEntry>, w': World)
    requires CaptureStreams(w, c, entries) == Ok(w')
    ensures w'.queries == w.queries
    decreases |entries|
  {
    if entries != [] {
      StreamsKeepQueries(CaptureStream(w, c, entries[0]).value, c, entries[1..], w');
    }
  }

  // ----- changes

  /** The signed sum is a number that the contract can compute. */
  predicate Fits(u: Uint256, change: Int256) {
    -INT256_MAX - 1 <= AsInt256(u) + change <= INT256_MAX
  }

  function Clamped(u: Uint256, change: Int256): Uint256 {
    if Fits(u, change) && AsInt256(u) + change > 0 then AsInt256(u) + change else 0
  }

  /** What an amount comes to once the changes of `entries` to `node` are done. */
  function AmountAfter(u: Uint256, entries: seq<NodeEntry>, node: Address): Uint256
    decreases |entries|
  {
    if entries == [] then u else
    AmountAfter(if entries[0].id == node then Clamped(u, entries[0].amount) else u, entries[1..], node)
  }

  /** Every entry's change can be computed when its turn comes, `before` being the amounts to start with. */
  ghost predicate EntriesFit(before: Address -> Uint256, entries: seq<NodeEntry>) {
    forall i :: 0 <= i < |entries| ==>
      Fits(AmountAfter(before(entries[i].id), entries[..i], entries[i].id), entries[i].amount)
  }

  lemma EntriesFitStep(before: Address -> Uint256, entries: seq<NodeEntry>, after: Address -> Uint256)
    requires entries != []
    requires forall n: Address ::
               after(n) == if n == entries[0].id then Clamped(before(n), entries[0].amount) else before(n)
    ensures EntriesFit(before, entries)
       <==> Fits(before(entries[0].id), entries[0].amount) && EntriesFit(after, entries[1..])
  {
    var rest := entries[1..];
    forall i | 1 <= i < |entries|
      ensures AmountAfter(before(entries[i].id), entries[..i], entries[i].id)
           == AmountAfter(after(rest[i - 1].id), rest[..i - 1], rest[i - 1].id)
    {
      assert entries[..i][1..] == rest[..i - 1];
    }
    assert AmountAfter(before(entries[0].id), entries[..0], entries[0].id) == before(entries[0].id);
    if EntriesFit(before, entries) {
      forall i | 0 <= i < |rest|
        ensures Fits(AmountAfter(after(rest[i].id), rest[..i], rest[i].id), rest[i].amount)
      {
        assert entries[i + 1] == rest[i];
      }
    }
  }

  function Stakes(st: NodeManager.State): Address -> Uint256 {
    (n: Address) => StakeOf(st, n)
  }

  lemma {:induction false} AdjustNodesIff(st: NodeManager.State, entries: seq<NodeEntry>)
    ensures AdjustNodes(st, entries).Ok? <==> EntriesFit(Stakes(st), entries)
    decreases |entries|
  {
    if entries != [] {
      var u, change := StakeOf(st, entries[0].id), entries[0].amount;
      var st' := SetStake(st, entries[0].id, Clamped(u, change));
      EntriesFitStep(Stakes(st), entries, Stakes(st'));
      if Fits(u, change) {
        assert Adjusted(u, change) == Ok(Clamped(u, change));
        AdjustNodesIff(st', entries[1..]);
      }
    }
  }

  function DelegationsOf(m: Delegations, delegate: Address): Address -> Uint256 {
    (n: Address) => Get(m, (delegate, n))
  }

  lemma {:induction false} AdjustDelegateIff(m: Delegations, delegate: Address, entries: seq<NodeEntry>)
    ensures AdjustDelegate(m, delegate, entries).Ok? <==> EntriesFit(DelegationsOf(m, delegate), entries)
    ensures AdjustDelegate(m, delegate, entries).Ok? ==>
              forall d: Address, n: Address ::
                Get(AdjustDelegate(m, delegate, entries).value, (d, n))
                == if d == delegate then AmountAfter(Get(m, (d, n)), entries, n) else Get(m, (d, n))
    decreases |entries|
  {
    if entries != [] {
      var k, change := (delegate, entries[0].id), entries[0].amount;
      var m' := m[k := Clamped(Get(m, k), change)];
      EntriesFitStep(DelegationsOf(m, delegate), entries, DelegationsOf(m', delegate));
      if Fits(Get(m, k), change) {
        assert Adjusted(Get(m, k), change) == Ok(Clamped(Get(m, k), change));
        AdjustDelegateIff(m', delegate, entries[1..]);
      }
    }
  }

  /** What a delegation comes to once the changes of `entries` are done. */
  function DelegatedAfter(u: Uint256, entries: seq<DelegateEntry>, delegate: Address, node: Address): Uint256
    decreases |entries|
  {
    if entries == [] then u else
    DelegatedAfter(if entries[0].id == delegate then AmountAfter(u, entries[0].nodes, node) else u,
                   entries[1..], delegate, node)
  }

  function DelegationsAfter(m: Delegations, entries: seq<DelegateEntry>, delegate: Address): Address -> Uint256 {
    (n: Address) => DelegatedAfter(Get(m, (delegate, n)), entries, delegate, n)
  }

  ghost predicate DelegatesFit(m: Delegations, entries: seq<DelegateEntry>) {
    forall i :: 0 <= i < |entries| ==> EntriesFit(DelegationsAfter(m, entries[..i], entries[i].id), entries[i].nodes)
  }

  lemma SameFit(f: Address -> Uint256, g: Address -> Uint256, entries: seq<NodeEntry>)
    requires forall n: Address :: f(n) == g(n)
    ensures EntriesFit(f, entries) <==> EntriesFit(g, entries)
  {
    forall i | 0 <= i < |entries|
      ensures AmountAfter(f(entries[i].id), entries[..i], entries[i].id)
           == AmountAfter(g(entries[i].id), entries[..i], entries[i].id)
    {
    }
  }

  lemma DelegatesFitStep(m: Delegations, entries: seq<DelegateEntry>, m': Delegations)
    requires entries != []
    requires forall d: Address, n: Address ::
               Get(m', (d, n))
               == if d == entries[0].id then AmountAfter(Get(m, (d, n)), entries[0].nodes, n) else Get(m, (d, n))
    ensures DelegatesFit(m, entries)
       <==> EntriesFit(DelegationsOf(m, entries[0].id), entries[0].nodes) && DelegatesFit(m', entries[1..])
  {
    var rest := entries[1..];
    SameFit(DelegationsAfter(m, entries[..0], entries[0].id), DelegationsOf(m, entries[0].id), entries[0].nodes);
    forall i | 1 <= i < |entries|
      ensures EntriesFit(DelegationsAfter(m, entries[..i], entries[i].id), entries[i].nodes)
         <==> EntriesFit(DelegationsAfter(m', rest[..i - 1], rest[i - 1].id), rest[i - 1].nodes)
    {
      assert entries[..i][1..] == rest[..i - 1];
      SameFit(DelegationsAfter(m, entries[..i], entries[i].id), DelegationsAfter(m', rest[..i - 1], rest[i - 1].id),
              entries[i].nodes);
    }
    if DelegatesFit(m, entries) {
      forall i | 0 <= i < |rest| ensures EntriesFit(DelegationsAfter(m', rest[..i], rest[i].id), rest[i].nodes) {
        assert entries[i + 1] == rest[i];
      }
    }
  }

  lemma {:induction false} AdjustDelegatesIff(m: Delegations, entries: seq<DelegateEntry>)
    ensures AdjustDelegates(m, entries).Ok? <==> DelegatesFit(m, entries)
    decreases |entries|
  {
    if entries != [] {
      AdjustDelegateIff(m, entries[0].id, entries[0].nodes);
      var one := AdjustDelegate(m, entries[0].id, entries[0].nodes);
      if one.Ok? {
        DelegatesFitStep(m, entries, one.value);
        AdjustDelegatesIff(one.value, entries[1..]);
      } else {
        SameFit(DelegationsAfter(m, entries[..0], entries[0].id), DelegationsOf(m, entries[0].id), entries[0].nodes);
      }
    }
  }

  // ----- the whole of `processReport`

  /** Every escrow that the report charges still has stake when its turn comes, the recorded supply takes all the fees,
      and every changed amount stays within the signed range. */
  ghost predicate Processable(w: World, report: Report) {
    var content := report.content;
    && StreamsFunded(w.stores.stores, content.streams)
    && ConsumersFunded(w.queries.balanceOf, content.consumers)
    && w.node.totalSupply + StreamFees(content.streams) + ConsumerFees(content.consumers) <= UINT256_MAX
    && EntriesFit(Stakes(w.node), content.nodes)
    && DelegatesFit(w.node.delegatesOf, content.delegates)
    && Fits(w.node.treasurySupply, report.treasury)
  }

  lemma ChangesIff(st: NodeManager.State, report: Report)
    ensures ApplyChanges(st, report).Ok?
       <==> && EntriesFit(Stakes(st), report.content.nodes)
            && DelegatesFit(st.delegatesOf, report.content.delegates)
            && Fits(st.treasurySupply, report.treasury)
  {
    AdjustNodesIff(st, report.content.nodes);
    AdjustDelegatesIff(st.delegatesOf, report.content.delegates);
    if AdjustNodes(st, report.content.nodes).Ok? {
      AdjustNodesKeeps(st, report.content.nodes, AdjustNodes(st, report.content.nodes).value);
    }
  }

  lemma CapturesIff(w: World, c: Contracts, streams: seq<StreamEntry>, consumers: seq<ConsumerEntry>)
    requires Separate(c) && Solvent(w, c)
    ensures CaptureStreams(w, c, streams).Ok? && CaptureConsumers(CaptureStreams(w, c, streams).value, c, consumers).Ok?
       <==> && StreamsFunded(w.stores.stores, streams)
            && ConsumersFunded(w.queries.balanceOf, consumers)
            && w.node.totalSupply + StreamFees(streams) + ConsumerFees(consumers) <= UINT256_MAX
  {
    CaptureStreamsIff(w, c, streams);
    if CaptureStreams(w, c, streams).Ok? {
      var w' := CaptureStreams(w, c, streams).value;
      CaptureStreamsSolvent(w, c, streams, w');
      StreamsKeepQueries(w, c, streams, w');
      CaptureConsumersIff(w', c, consumers);
    }
  }

  /** A solvent system processes a report exactly if a staked account asks for it, it was not processed before, and it
      is processable. */
  lemma ProcessIff(w: World, c: Contracts, sender: Address, id: Bytes)
    requires Separate(c) && Solvent(w, c)
    ensures ProcessReport(w, c, sender, id).Ok?
       <==> && IsStaked(w.node, sender)
            && !ReportManager.ReportAt(w.reports, id).processed
            && Processable(w, ReportManager.ReportAt(w.reports, id))
  {
    var report := ReportManager.ReportAt(w.reports, id);
    var streams, consumers := report.content.streams, report.content.consumers;
    CapturesIff(w, c, streams, consumers);
    if CaptureStreams(w, c, streams).Ok? && CaptureConsumers(CaptureStreams(w, c, streams).value, c, consumers).Ok? {
      var w1 := CaptureStreams(w, c, streams).value;
      var w2 := CaptureConsumers(w1, c, consumers).value;
      CaptureStreamsSolvent(w, c, streams, w1);
      CaptureConsumersSolvent(w1, c, consumers, w2);
      ChangesIff(w2.node, report);
      SameFit(Stakes(w2.node), Stakes(w.node), report.content.nodes);
    }
  }

  /** And so does every reachable one. */
  lemma ProcessAfterRunIff(w: World, env: Env, calls: seq<Call>, sender: Address, id: Bytes)
    requires Initial(w, env) && AllAdmissible(env, calls)
    ensures var w' := Run(w, env, calls);
            ProcessReport(w', env.contracts, sender, id).Ok?
            <==> && IsStaked(w'.node, sender)
                 && !ReportManager.ReportAt(w'.reports, id).processed
                 && Processable(w', ReportManager.ReportAt(w'.reports, id))
  {
    InitialValid(w, env);
    RunValid(w, env, calls, []);
    ProcessIff(Run(w, env, calls), env.contracts, sender, id);
  }

  // ----- accepted, and stuck

  lemma {:induction false} NothingComesBack(entries: seq<StreamEntry>, stream: Bytes)
    ensures StreamLeft(0, entries, stream) == 0
    decreases |entries|
  {
    if entries != [] {
      NothingComesBack(entries[1..], stream);
    }
  }

  lemma {:induction false} EmptiedStaysEmpty(stored: Uint256, entries: seq<StreamEntry>, j: nat, stream: Bytes)
    requires j < |entries| && entries[j].id == stream && entries[j].writeBytes > 0 && entries[j].writeCapture >= stored
    ensures StreamLeft(stored, entries, stream) == 0
    decreases |entries|
  {
    var e := entries[0];
    if j == 0 {
      NothingComesBack(entries[1..], stream);
    } else {
      var left := if e.writeBytes > 0 && e.id == stream then Stores.SubClamped(stored, e.writeCapture) else stored;
      EmptiedStaysEmpty(left, entries[1..], j - 1, stream);
    }
  }

  /** Nobody can process a report that charges a stream without stake, or one that an earlier entry charges for all
      its stake. */
  lemma EmptyStreamBlocks(w: World, c: Contracts, sender: Address, id: Bytes, i: nat)
    requires Separate(c) && Solvent(w, c)
    requires var entries := ReportManager.ReportAt(w.reports, id).content.streams;
             && i < |entries| && entries[i].writeBytes > 0
             && var stored := Get(w.stores.stores, entries[i].id);
                || stored == 0
                || exists j :: 0 <= j < i && entries[j].id == entries[i].id && entries[j].writeBytes > 0
                               && entries[j].writeCapture >= stored
    ensures ProcessReport(w, c, sender, id).Revert?
  {
    var entries := ReportManager.ReportAt(w.reports, id).content.streams;
    var stream, stored := entries[i].id, Get(w.stores.stores, entries[i].id);
    ProcessIff(w, c, sender, id);
    if stored == 0 {
      NothingComesBack(entries[..i], stream);
    } else {
      var j :| 0 <= j < i && entries[j].id == stream && entries[j].writeBytes > 0 && entries[j].writeCapture >= stored;
      EmptiedStaysEmpty(stored, entries[..i], j, stream);
    }
  }

  // ----- what processing leaves

  /** Every node's stake goes through all its changes in order, the last one included. */
  lemma {:induction false} AdjustNodesEffect(st: NodeManager.State, entries: seq<NodeEntry>, st': NodeManager.State,
                                             n: Address)
    requires AdjustNodes(st, entries) == Ok(st')
    ensures StakeOf(st', n) == AmountAfter(StakeOf(st, n), entries, n)
    decreases |entries|
  {
    if entries != [] {
      var u, change := StakeOf(st, entries[0].id), entries[0].amount;
      assert Adjusted(u, change) == Ok(Clamped(u, change));
      AdjustNodesEffect(SetStake(st, entries[0].id, Clamped(u, change)), entries[1..], st', n);
    }
  }

  lemma {:induction false} AdjustDelegatesEffect(m: Delegations, entries: seq<DelegateEntry>, m': Delegations,
                                                 d: Address, n: Address)
    requires AdjustDelegates(m, entries) == Ok(m')
    ensures Get(m', (d, n)) == DelegatedAfter(Get(m, (d, n)), entries, d, n)
    decreases |entries|
  {
    if entries != [] {
      AdjustDelegateIff(m, entries[0].id, entries[0].nodes);
      AdjustDelegatesEffect(AdjustDelegate(m, entries[0].id, entries[0].nodes).value, entries[1..], m', d, n);
    }
  }

  lemma {:induction false} CaptureStreamsEffect(w: World, c: Contracts, entries: seq<StreamEntry>, w': World,
                                                stream: Bytes)
    requires Separate(c) && Solvent(w, c) && CaptureStreams(w, c, entries) == Ok(w')
    ensures Get(w'.stores.stores, stream) == StreamLeft(Get(w.stores.stores, stream), entries, stream)
    decreases |entries|
  {
    if entries != [] {
      var w1 := CaptureStream(w, c, entries[0]).value;
      CaptureStreamSolvent(w, c, entries[0], w1);
      CapturedStores(w, c, entries[0], w1);
      CaptureStreamsEffect(w1, c, entries[1..], w', stream);
    }
  }

  lemma {:induction false} CaptureConsumersEffect(w: World, c: Contracts, entries: seq<ConsumerEntry>, w': World,
                                                  consumer: Address)
    requires Separate(c) && Solvent(w, c) && CaptureConsumers(w, c, entries) == Ok(w')
    ensures Get(w'.queries.balanceOf, consumer) == BalanceLeft(Get(w.queries.balanceOf, consumer), entries, consumer)
    ensures w'.stores == w.stores
    decreases |entries|
  {
    if entries != [] {
      var w1 := CaptureConsumer(w, c, entries[0]).value;
      CaptureConsumerSolvent(w, c, entries[0], w1);
      CaptureConsumerIff(w, c, entries[0]);
      CaptureConsumersEffect(w1, c, entries[1..], w', consumer);
    }
  }

  /** Capturing moves tokens between the contracts only. */
  lemma {:induction false} StreamsKeepOutside(w: World, c: Contracts, entries: seq<StreamEntry>, w': World, x: Address)
    requires Separate(c) && x != c.nodeManager && x != c.storeManager
    requires CaptureStreams(w, c, entries) == Ok(w')
    ensures Get(w'.ledger, x) == Get(w.ledger, x)
    decreases |entries|
  {
    if entries != [] {
      StreamsKeepOutside(CaptureStream(w, c, entries[0]).value, c, entries[1..], w', x);
    }
  }

  lemma {:induction false} ConsumersKeepOutside(w: World, c: Contracts, entries: seq<ConsumerEntry>, w': World,
                                                x: Address)
    requires Separate(c) && x != c.nodeManager && x != c.queryManager
    requires CaptureConsumers(w, c, entries) == Ok(w')
    ensures Get(w'.ledger, x) == Get(w.ledger, x)
    decreases |entries|
  {
    if entries != [] {
      ConsumersKeepOutside(CaptureConsumer(w, c, entries[0]).value, c, entries[1..], w', x);
    }
  }

  lemma ChangesEffect(st: NodeManager.State, report: Report, st': NodeManager.State)
    requires ApplyChanges(st, report) == Ok(st')
    ensures forall n: Address :: StakeOf(st', n) == AmountAfter(StakeOf(st, n), report.content.nodes, n)
    ensures forall d: Address, n: Address ::
              Get(st'.delegatesOf, (d, n))
                   == DelegatedAfter(Get(st.delegatesOf, (d, n)), report.content.delegates, d, n)
    ensures st'.treasurySupply == Clamped(st.treasurySupply, report.treasury)
    ensures st' == st.(list := st'.list, permitted := st'.permitted, delegatesOf := st'.delegatesOf,
                       treasurySupply := st'.treasurySupply)
  {
    var adjusted := AdjustNodes(st, report.content.nodes).value;
    AdjustNodesKeeps(st, report.content.nodes, adjusted);
    forall n: Address ensures StakeOf(st', n) == AmountAfter(StakeOf(st, n), report.content.nodes, n) {
      AdjustNodesEffect(st, report.content.nodes, adjusted, n);
    }
    forall d: Address, n: Address
      ensures Get(st'.delegatesOf, (d, n))
           == DelegatedAfter(Get(st.delegatesOf, (d, n)), report.content.delegates, d, n)
    {
      AdjustDelegatesEffect(st.delegatesOf, report.content.delegates, st'.delegatesOf, d, n);
    }
  }

  /** After processing: every stake, every delegation and the treasury have gone through all their changes, every
      stream and every consumer through all their captures, and nothing else of the node manager has changed but the
      recorded supply and the permissions. */
  lemma ProcessedNode(w: World, c: Contracts, sender: Address, id: Bytes, w': World)
    requires Separate(c) && Solvent(w, c) && ProcessReport(w, c, sender, id) == Ok(w')
    ensures var report := ReportManager.ReportAt(w.reports, id);
            && (forall n: Address :: StakeOf(w'.node, n) == AmountAfter(StakeOf(w.node, n), report.content.nodes, n))
            && (forall d: Address, n: Address ::
                  Get(w'.node.delegatesOf, (d, n))
                  == DelegatedAfter(Get(w.node.delegatesOf, (d, n)), report.content.delegates, d, n))
            && w'.node.treasurySupply == Clamped(w.node.treasurySupply, report.treasury)
            && w'.node.balanceOf == w.node.balanceOf && w'.node.whitelist == w.node.whitelist
            && w'.node.requiresWhitelist == w.node.requiresWhitelist
            && w'.node.stakeRequiredAmount == w.node.stakeRequiredAmount
  {
    var report := ReportManager.ReportAt(w.reports, id);
    var w1 := CaptureStreams(w, c, report.content.streams).value;
    var w2 := CaptureConsumers(w1, c, report.content.consumers).value;
    CaptureStreamsSolvent(w, c, report.content.streams, w1);
    CaptureConsumersSolvent(w1, c, report.content.consumers, w2);
    ChangesEffect(w2.node, report, w'.node);
  }

  lemma ProcessedEscrows(w: World, c: Contracts, sender: Address, id: Bytes, w': World)
    requires Separate(c) && Solvent(w, c) && ProcessReport(w, c, sender, id) == Ok(w')
    ensures var content := ReportManager.ReportAt(w.reports, id).content;
            && (forall s: Bytes :: Get(w'.stores.stores, s) == StreamLeft(Get(w.stores.stores, s), content.streams, s))
            && (forall x: Address ::
                  Get(w'.queries.balanceOf, x) == BalanceLeft(Get(w.queries.balanceOf, x), content.consumers, x))
            && (forall x: Address :: !IsContract(c, x) ==> Get(w'.ledger, x) == Get(w.ledger, x))
  {
    var content := ReportManager.ReportAt(w.reports, id).content;
    var w1 := CaptureStreams(w, c, content.streams).value;
    var w2 := CaptureConsumers(w1, c, content.consumers).value;
    CaptureStreamsSolvent(w, c, content.streams, w1);
    StreamsKeepQueries(w, c, content.streams, w1);
    forall s: Bytes ensures Get(w'.stores.stores, s) == StreamLeft(Get(w.stores.stores, s), content.streams, s) {
      CaptureStreamsEffect(w, c, content.streams, w1, s);
      CaptureConsumersEffect(w1, c, content.consumers, w2, NO_ADDRESS);
    }
    forall x: Address
      ensures Get(w'.queries.balanceOf, x) == BalanceLeft(Get(w.queries.balanceOf, x), content.consumers, x)
    {
      CaptureConsumersEffect(w1, c, content.consumers, w2, x);
    }
    forall x: Address | !IsContract(c, x) ensures Get(w'.ledger, x) == Get(w.ledger, x) {
      StreamsKeepOutside(w, c, content.streams, w1, x);
      ConsumersKeepOutside(w1, c, content.consumers, w2, x);
    }
  }

  // ----- the sequences of changes in plain numbers

  /** The changes to one node, added up. */
  function ChangeOf(entries: seq<NodeEntry>, node: Address): int {
    if entries == [] then 0 else (if entries[0].id == node then entries[0].amount else 0) + ChangeOf(entries[1..], node)
  }

  /** As long as the amount neither falls below zero nor leaves the signed range on the way, it changes by the sum. */
  lemma {:induction false} AmountAdds(u: Uint256, entries: seq<NodeEntry>, node: Address)
    requires forall i :: 0 <= i <= |entries| ==> 0 <= u + ChangeOf(entries[..i], node) <= INT256_MAX
    ensures AmountAfter(u, entries, node) == u + ChangeOf(entries, node)
    decreases |entries|
  {
    assert u + ChangeOf(entries[..0], node) == u;
    if entries != [] {
      var first := if entries[0].id == node then entries[0].amount else 0;
      assert entries[..1][0] == entries[0] && entries[..1][1..] == [];
      assert ChangeOf(entries[..1], node) == first + ChangeOf([], node);
      forall i | 0 <= i < |entries|
        ensures ChangeOf(entries[..i + 1], node) == first + ChangeOf(entries[1..][..i], node)
      {
        assert entries[..i + 1][1..] == entries[1..][..i];
      }
      AmountAdds(u + first, entries[1..], node);
    }
  }

  /** A change that would take an amount below zero leaves zero. */
  lemma ChangedAmount(u: Uint256, change: Int256)
    requires u <= INT256_MAX && u + change <= INT256_MAX
    ensures Clamped(u, change) == if u + change > 0 then u + change else 0
  {
  }

  function FeeOf(entries: seq<StreamEntry>, stream: Bytes): nat {
    if entries == [] then 0 else
    (if entries[0].id == stream && entries[0].writeBytes > 0 then entries[0].writeCapture else 0)
    + FeeOf(entries[1..], stream)
  }

  function ChargeOf(entries: seq<ConsumerEntry>, consumer: Address): nat {
    if entries == [] then 0 else
    (if entries[0].id == consumer && entries[0].readBytes > 0 then entries[0].readCapture else 0)
    + ChargeOf(entries[1..], consumer)
  }

  /** A stream's stake and a consumer's balance lose the sum of what is charged to them, or all they have. */
  lemma {:induction false} FeesAdd(stored: Uint256, entries: seq<StreamEntry>, stream: Bytes)
    ensures StreamLeft(stored, entries, stream)
         == if FeeOf(entries, stream) <= stored then stored - FeeOf(entries, stream) else 0
    decreases |entries|
  {
    if entries != [] {
      var e := entries[0];
      var left := if e.writeBytes > 0 && e.id == stream then Stores.SubClamped(stored, e.writeCapture) else stored;
      FeesAdd(left, entries[1..], stream);
    }
  }

  lemma {:induction false} ChargesAdd(balance: Uint256, entries: seq<ConsumerEntry>, consumer: Address)
    ensures BalanceLeft(balance, entries, consumer)
         == if ChargeOf(entries, consumer) <= balance then balance - ChargeOf(entries, consumer) else 0
    decreases |entries|
  {
    if entries != [] {
      var e := entries[0];
      var left := if e.readBytes > 0 && e.id == consumer then Stores.SubClamped(balance, e.readCapture) else balance;
      ChargesAdd(left, entries[1..], consumer);
    }
  }
}
