/** What a report consists of on chain, the byte string its signers sign, and how `report` rebuilds
    both from its parallel argument arrays. */
module Reports {
  import opened Evm
  import opened HexStrings

  datatype StreamEntry = StreamEntry(id: Bytes, writeCapture: Uint256, writeBytes: Uint256)
  datatype ConsumerEntry = ConsumerEntry(id: Address, readCapture: Uint256, readBytes: Uint256)
  datatype NodeEntry = NodeEntry(id: Address, amount: Int256)
  datatype DelegateEntry = DelegateEntry(id: Address, nodes: seq<NodeEntry>)

  datatype Content = Content(
    streams: seq<StreamEntry>, consumers: seq<ConsumerEntry>, nodes: seq<NodeEntry>, delegates: seq<DelegateEntry>
  )

  datatype Report = Report(
    id: Bytes, height: Uint256, treasury: Int256, content: Content, reporter: Address, processed: bool
  )

  const NO_REPORT := Report([], 0, 0, Content([], [], [], []), NO_ADDRESS, false)

  datatype Proof = Proof(signer: Address, signature: Bytes, timestamp: Uint256)

  /** The calldata of `report`. */
  datatype Arguments = Arguments(
    id: Bytes,
    blockHeight: Uint256,
    streams: seq<Bytes>,
    writeCaptureAmounts: seq<Uint256>,
    writeBytes: seq<Uint256>,
    readConsumerAddresses: seq<Address>,
    readCaptureAmounts: seq<Uint256>,
    readBytes: seq<Uint256>,
    nodes: seq<Address>,
    nodeChanges: seq<Int256>,
    delegates: seq<Address>,
    delegateNodes: seq<seq<Address>>,
    delegateNodeChanges: seq<seq<Int256>>,
    treasurySupplyChange: Int256,
    addresses: seq<Address>,
    proofTimestamps: seq<Uint256>,
    signatures: seq<Bytes>
  )

  // ----- abi.encodePacked

  function BigEndian(n: nat, k: nat): (b: Bytes)
    ensures |b| == k
  {
    if k == 0 then [] else BigEndian(n / 0x100, k - 1) + [n % 0x100]
  }

  function PackUint(n: Uint256): Bytes {
    BigEndian(n, 32)
  }

  function PackAddress(a: Address): Bytes {
    BigEndian(a, 20)
  }

  function PackStreams(s: seq<StreamEntry>): Bytes {
    if s == [] then [] else
    var last := s[|s| - 1];
    PackStreams(s[..|s| - 1]) + last.id + Hex(last.writeCapture) + PackUint(last.writeBytes)
  }

  function PackConsumers(s: seq<ConsumerEntry>): Bytes {
    if s == [] then [] else
    var last := s[|s| - 1];
    PackConsumers(s[..|s| - 1]) + PackAddress(last.id) + Hex(last.readCapture) + PackUint(last.readBytes)
  }

  function PackNodes(s: seq<NodeEntry>): Bytes {
    if s == [] then [] else
    var last := s[|s| - 1];
    PackNodes(s[..|s| - 1]) + PackAddress(last.id) + Hex(last.amount)
  }

  function PackDelegates(s: seq<DelegateEntry>): Bytes {
    if s == [] then [] else
    var last := s[|s| - 1];
    PackDelegates(s[..|s| - 1]) + PackAddress(last.id) + PackNodes(last.nodes)
  }

  function PackContent(c: Content): Bytes {
    PackStreams(c.streams) + PackConsumers(c.consumers) + PackNodes(c.nodes) + PackDelegates(c.delegates)
  }

  /** The bytes behind the time-based one-time hash. */
  function Preimage(id: Bytes, height: Uint256, pack: Bytes, treasury: Int256, timestamp: Uint256): Bytes {
    id + PackUint(height) + pack + Hex(treasury) + PackUint(timestamp)
  }

  // ----- zipping the argument arrays

  function StreamsOf(p: Arguments): (s: seq<StreamEntry>)
    requires |p.streams| <= |p.writeCaptureAmounts| && |p.streams| <= |p.writeBytes|
    ensures |s| == |p.streams|
  {
    seq(|p.streams|, i requires 0 <= i < |p.streams| =>
      StreamEntry(p.streams[i], p.writeCaptureAmounts[i], p.writeBytes[i]))
  }

  function ConsumersOf(p: Arguments): (s: seq<ConsumerEntry>)
    requires |p.readConsumerAddresses| <= |p.readCaptureAmounts| && |p.readConsumerAddresses| <= |p.readBytes|
    ensures |s| == |p.readConsumerAddresses|
  {
    seq(|p.readConsumerAddresses|, i requires 0 <= i < |p.readConsumerAddresses| =>
      ConsumerEntry(p.readConsumerAddresses[i], p.readCaptureAmounts[i], p.readBytes[i]))
  }

  function NodesOf(ids: seq<Address>, amounts: seq<Int256>): (s: seq<NodeEntry>)
    requires |ids| <= |amounts|
    ensures |s| == |ids|
  {
    seq(|ids|, i requires 0 <= i < |ids| => NodeEntry(ids[i], amounts[i]))
  }

  /** The changes for delegate `i`; they are never looked at if it has no nodes. */
  function ChangesOf(p: Arguments, i: nat): seq<Int256> {
    if i < |p.delegateNodeChanges| then p.delegateNodeChanges[i] else []
  }

  predicate DelegateInRange(p: Arguments, i: nat) {
    i < |p.delegateNodes| && |p.delegateNodes[i]| <= |ChangesOf(p, i)|
  }

  predicate InRange(p: Arguments) {
    && |p.streams| <= |p.writeCaptureAmounts| && |p.streams| <= |p.writeBytes|
    && |p.readConsumerAddresses| <= |p.readCaptureAmounts| && |p.readConsumerAddresses| <= |p.readBytes|
    && |p.nodes| <= |p.nodeChanges|
    && forall i :: 0 <= i < |p.delegates| ==> DelegateInRange(p, i)
  }

  function DelegatesOf(p: Arguments): (s: seq<DelegateEntry>)
    requires InRange(p)
    ensures |s| == |p.delegates|
  {
    seq(|p.delegates|, i requires 0 <= i < |p.delegates| && DelegateInRange(p, i) =>
      DelegateEntry(p.delegates[i], NodesOf(p.delegateNodes[i], ChangesOf(p, i))))
  }

  /** The report that the arguments spell out, unless some array is too short for its loop. */
  function ContentOf(p: Arguments): Outcome<Content> {
    if InRange(p) then
      Ok(Content(StreamsOf(p), ConsumersOf(p), NodesOf(p.nodes, p.nodeChanges), DelegatesOf(p)))
    else Revert(PANIC_INDEX)
  }

  // ----- the contract's loops (lines 181-231), each returning its entries and its share of the pack

  method RebuildStreams(p: Arguments) returns (r: Outcome<(seq<StreamEntry>, Bytes)>)
    ensures r == if |p.streams| <= |p.writeCaptureAmounts| && |p.streams| <= |p.writeBytes|
                 then Ok((StreamsOf(p), PackStreams(StreamsOf(p)))) else Revert(PANIC_INDEX)
  {
    var pack: Bytes := [];
    var entries: seq<StreamEntry> := [];
    for i := 0 to |p.streams|
      invariant i <= |p.writeCaptureAmounts| && i <= |p.writeBytes| && |entries| == i
      invariant forall j :: 0 <= j < i ==>
                  entries[j] == StreamEntry(p.streams[j], p.writeCaptureAmounts[j], p.writeBytes[j])
      invariant pack == PackStreams(entries)
    {
      if i >= |p.writeCaptureAmounts| || i >= |p.writeBytes| {
        return Revert(PANIC_INDEX);
      }
      var capture := ToHexString(p.writeCaptureAmounts[i]);
      pack := pack + p.streams[i] + capture + PackUint(p.writeBytes[i]);
      ghost var before := entries;
      entries := entries + [StreamEntry(p.streams[i], p.writeCaptureAmounts[i], p.writeBytes[i])];
      assert entries[..i] == before;
    }
    assert entries == StreamsOf(p);
    return Ok((entries, pack));
  }

  method RebuildConsumers(p: Arguments) returns (r: Outcome<(seq<ConsumerEntry>, Bytes)>)
    ensures r == if |p.readConsumerAddresses| <= |p.readCaptureAmounts| && |p.readConsumerAddresses| <= |p.readBytes|
                 then Ok((ConsumersOf(p), PackConsumers(ConsumersOf(p)))) else Revert(PANIC_INDEX)
  {
    var pack: Bytes := [];
    var entries: seq<ConsumerEntry> := [];
    for i := 0 to |p.readConsumerAddresses|
      invariant i <= |p.readCaptureAmounts| && i <= |p.readBytes| && |entries| == i
      invariant forall j :: 0 <= j < i ==>
                  entries[j] == ConsumerEntry(p.readConsumerAddresses[j], p.readCaptureAmounts[j], p.readBytes[j])
      invariant pack == PackConsumers(entries)
    {
      if i >= |p.readCaptureAmounts| || i >= |p.readBytes| {
        return Revert(PANIC_INDEX);
      }
      var capture := ToHexString(p.readCaptureAmounts[i]);
      pack := pack + PackAddress(p.readConsumerAddresses[i]) + capture + PackUint(p.readBytes[i]);
      ghost var before := entries;
      entries := entries + [ConsumerEntry(p.readConsumerAddresses[i], p.readCaptureAmounts[i], p.readBytes[i])];
      assert entries[..i] == before;
    }
    assert entries == ConsumersOf(p);
    return Ok((entries, pack));
  }

  method RebuildNodes(ids: seq<Address>, amounts: seq<Int256>) returns (r: Outcome<(seq<NodeEntry>, Bytes)>)
    ensures r == if |ids| <= |amounts| then Ok((NodesOf(ids, amounts), PackNodes(NodesOf(ids, amounts))))
                 else Revert(PANIC_INDEX)
  {
    var pack: Bytes := [];
    var entries: seq<NodeEntry> := [];
    for i := 0 to |ids|
      invariant i <= |amounts| && |entries| == i
      invariant forall j :: 0 <= j < i ==> entries[j] == NodeEntry(ids[j], amounts[j])
      invariant pack == PackNodes(entries)
    {
      if i >= |amounts| {
        return Revert(PANIC_INDEX);
      }
      var change := ToHexStringSigned(amounts[i]);
      pack := pack + PackAddress(ids[i]) + change;
      ghost var before := entries;
      entries := entries + [NodeEntry(ids[i], amounts[i])];
      assert entries[..i] == before;
    }
    assert entries == NodesOf(ids, amounts);
    return Ok((entries, pack));
  }

  method RebuildDelegates(p: Arguments) returns (r: Outcome<(seq<DelegateEntry>, Bytes)>)
    ensures r.Ok? <==> forall i :: 0 <= i < |p.delegates| ==> DelegateInRange(p, i)
    ensures r.Revert? ==> r.reason == PANIC_INDEX
    ensures r.Ok? ==> |r.value.0| == |p.delegates| && r.value.1 == PackDelegates(r.value.0)
    ensures r.Ok? ==> forall i :: 0 <= i < |p.delegates| ==>
              && DelegateInRange(p, i)
              && r.value.0[i] == DelegateEntry(p.delegates[i], NodesOf(p.delegateNodes[i], ChangesOf(p, i)))
  {
    var pack: Bytes := [];
    var entries: seq<DelegateEntry> := [];
    for i := 0 to |p.delegates|
      invariant |entries| == i
      invariant forall j :: 0 <= j < i ==>
                  && DelegateInRange(p, j)
                  && entries[j] == DelegateEntry(p.delegates[j], NodesOf(p.delegateNodes[j], ChangesOf(p, j)))
      invariant pack == PackDelegates(entries)
    {
      if i >= |p.delegateNodes| {
        assert !DelegateInRange(p, i);
        return Revert(PANIC_INDEX);
      }
      var nodes := RebuildNodes(p.delegateNodes[i], ChangesOf(p, i));
      if nodes.Revert? {
        assert !DelegateInRange(p, i);
        return Revert(PANIC_INDEX);
      }
      pack := pack + PackAddress(p.delegates[i]) + nodes.value.1;
      ghost var before := entries;
      entries := entries + [DelegateEntry(p.delegates[i], nodes.value.0)];
      assert entries[..i] == before;
    }
    return Ok((entries, pack));
  }

  method Rebuild(p: Arguments) returns (r: Outcome<(Content, Bytes)>)
    ensures r == match ContentOf(p)
                 case Ok(c) => Ok((c, PackContent(c)))
                 case Revert(why) => Revert(why)
  {
    var streams :- RebuildStreams(p);
    var consumers :- RebuildConsumers(p);
    var nodes :- RebuildNodes(p.nodes, p.nodeChanges);
    var delegates :- RebuildDelegates(p);
    assert delegates.0 == DelegatesOf(p);
    return Ok((Content(streams.0, consumers.0, nodes.0, delegates.0), streams.1 + consumers.1 + nodes.1 + delegates.1));
  }
}
