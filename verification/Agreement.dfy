/** Off chain and on chain agree: what `toContract` sends is rebuilt by `report` into the same report, and
    the bytes hashed there are the bytes hashed by `toHash`. */
module Agreement {
  import opened Evm
  import opened HexStrings
  import opened Reports
  import opened Serializer
  import opened Text

  /** The proofs that are sent along with a report. */
  datatype Proofs = Proofs(addresses: seq<Address>, timestamps: seq<Uint256>, signatures: seq<Bytes>)

  // ----- the ABI encoder

  predicate IsUint(v: int) {
    0 <= v <= UINT256_MAX
  }

  predicate IsInt(v: int) {
    -INT256_MAX - 1 <= v <= INT256_MAX
  }

  predicate AreInts(s: seq<int>) {
    forall i :: 0 <= i < |s| ==> IsInt(s[i])
  }

  function AsUint(v: int): Uint256 {
    if IsUint(v) then v else 0
  }

  function AsInt(v: int): Int256 {
    if IsInt(v) then v else 0
  }

  /** The encoder takes numbers in range and strings without lone surrogates, and throws on others. */
  ghost predicate Encodable(c: ContractParams) {
    && WellFormed(c.id)
    && (forall i :: 0 <= i < |c.streams| ==> WellFormed(c.streams[i]))
    && (forall i :: 0 <= i < |c.writeCaptureAmounts| ==> IsUint(c.writeCaptureAmounts[i]))
    && (forall i :: 0 <= i < |c.readCaptureAmounts| ==> IsUint(c.readCaptureAmounts[i]))
    && AreInts(c.nodeChanges)
    && (forall i :: 0 <= i < |c.delegateNodeChanges| ==> AreInts(c.delegateNodeChanges[i]))
    && IsInt(c.treasurySupplyChange)
  }

  /** The arguments that `report` receives. */
  function OnChain(c: ContractParams, proofs: Proofs): Arguments {
    Arguments(
      Utf8(c.id), c.blockHeight,
      Map(Utf8, c.streams), Map(AsUint, c.writeCaptureAmounts), c.writeBytes,
      c.readConsumerAddresses, Map(AsUint, c.readCaptureAmounts), c.readBytes,
      c.nodes, Map(AsInt, c.nodeChanges),
      c.delegates, c.delegateNodes, Map((s: seq<int>) => Map(AsInt, s), c.delegateNodeChanges),
      AsInt(c.treasurySupplyChange),
      proofs.addresses, proofs.timestamps, proofs.signatures)
  }

  // ----- the same report on both sides

  function StreamToEntry(p: Stream<int>): StreamEntry {
    StreamEntry(Utf8(p.id), AsUint(p.capture), p.bytes)
  }

  function ConsumerToEntry(p: Consumer<int>): ConsumerEntry {
    ConsumerEntry(p.id, AsUint(p.capture), p.bytes)
  }

  function AmountToEntry(e: (Address, int)): NodeEntry {
    NodeEntry(e.0, AsInt(e.1))
  }

  function DelegateToEntry(e: (Address, Record<int>)): DelegateEntry {
    DelegateEntry(e.0, Map(AmountToEntry, e.1))
  }

  function ToContent(r: SystemReport<int>): Content {
    Content(Map(StreamToEntry, r.streams), Map(ConsumerToEntry, r.consumers),
            Map(AmountToEntry, r.nodes), Map(DelegateToEntry, r.delegates))
  }

  lemma NodesMatch(r: Record<int>)
    ensures NodesOf(Keys(r), Map(AsInt, Values(r))) == Map(AmountToEntry, r)
  {
  }

  lemma DelegatesMatch(r: SystemReport<int>, proofs: Proofs)
    ensures var p := OnChain(Params(r), proofs);
            && |p.delegates| == |r.delegates|
            && forall i :: 0 <= i < |r.delegates| ==>
              && DelegateInRange(p, i)
              && DelegateEntry(p.delegates[i], NodesOf(p.delegateNodes[i], ChangesOf(p, i)))
                 == DelegateToEntry(r.delegates[i])
  {
    var p := OnChain(Params(r), proofs);
    forall i | 0 <= i < |r.delegates|
      ensures DelegateInRange(p, i)
      ensures DelegateEntry(p.delegates[i], NodesOf(p.delegateNodes[i], ChangesOf(p, i)))
           == DelegateToEntry(r.delegates[i])
    {
      assert p.delegateNodes[i] == Keys(r.delegates[i].1);
      assert ChangesOf(p, i) == Map(AsInt, Values(r.delegates[i].1));
      NodesMatch(r.delegates[i].1);
    }
  }

  /** Zipping the parallel arrays back together on chain gives the report they were made from. */
  lemma RebuiltReport(r: SystemReport<int>, proofs: Proofs)
    ensures ContentOf(OnChain(Params(r), proofs)) == Ok(ToContent(r))
  {
    var p := OnChain(Params(r), proofs);
    DelegatesMatch(r, proofs);
    NodesMatch(r.nodes);
    assert InRange(p);
    assert StreamsOf(p) == Map(StreamToEntry, r.streams);
    assert ConsumersOf(p) == Map(ConsumerToEntry, r.consumers);
    assert DelegatesOf(p) == Map(DelegateToEntry, r.delegates);
  }

  // ----- the same bytes on both sides

  lemma {:induction false} DigitsAscii(v: nat, k: nat)
    ensures forall i :: 0 <= i < k ==> Digits(v, k)[i] < 0x80
  {
    if k > 0 {
      DigitsAscii(v / 16, k - 1);
    }
  }

  /** Packing the wire text of a number packs the text that Solidity makes of it. */
  lemma WireText(v: int)
    ensures Utf8(BigNumberHex(v)) == Hex(v)
  {
    SameText(v);
    DigitsAscii(Abs(v), 2 * (Log256(Abs(v)) + 1));
    AsciiUtf8(Hex(v));
  }

  lemma {:induction false} StreamBytes(s: seq<Stream<int>>)
    requires forall i :: 0 <= i < |s| ==> WellFormed(s[i].id) && IsUint(s[i].capture)
    ensures HashStreams(Map(WireStream, s)) == Some(PackStreams(Map(StreamToEntry, s)))
    decreases |s|
  {
    if s != [] {
      var most, last := s[..|s| - 1], s[|s| - 1];
      StreamBytes(most);
      assert Map(WireStream, s)[..|s| - 1] == Map(WireStream, most);
      assert Map(StreamToEntry, s)[..|s| - 1] == Map(StreamToEntry, most);
      HexRoundTrip(last.id);
      WireText(last.capture);
    }
  }

  lemma {:induction false} ConsumerBytes(s: seq<Consumer<int>>)
    requires forall i :: 0 <= i < |s| ==> IsUint(s[i].capture)
    ensures HashConsumers(Map(WireConsumer, s)) == PackConsumers(Map(ConsumerToEntry, s))
    decreases |s|
  {
    if s != [] {
      var most, last := s[..|s| - 1], s[|s| - 1];
      ConsumerBytes(most);
      assert Map(WireConsumer, s)[..|s| - 1] == Map(WireConsumer, most);
      assert Map(ConsumerToEntry, s)[..|s| - 1] == Map(ConsumerToEntry, most);
      WireText(last.capture);
    }
  }

  lemma {:induction false} AmountBytes(r: Record<int>)
    requires forall i :: 0 <= i < |r| ==> IsInt(r[i].1)
    ensures HashAmounts(Map(WireAmount, r)) == PackNodes(Map(AmountToEntry, r))
    decreases |r|
  {
    if r != [] {
      var most, last := r[..|r| - 1], r[|r| - 1];
      AmountBytes(most);
      assert Map(WireAmount, r)[..|r| - 1] == Map(WireAmount, most);
      assert Map(AmountToEntry, r)[..|r| - 1] == Map(AmountToEntry, most);
      WireText(last.1);
    }
  }

  lemma {:induction false} DelegateBytes(r: Record<Record<int>>)
    requires forall i :: 0 <= i < |r| ==> AreInts(Values(r[i].1))
    ensures HashDelegates(Map(WireDelegate, r)) == PackDelegates(Map(DelegateToEntry, r))
    decreases |r|
  {
    if r != [] {
      var most, last := r[..|r| - 1], r[|r| - 1];
      DelegateBytes(most);
      assert Map(WireDelegate, r)[..|r| - 1] == Map(WireDelegate, most);
      assert Map(DelegateToEntry, r)[..|r| - 1] == Map(DelegateToEntry, most);
      AmountsInRange(last.1);
      AmountBytes(last.1);
    }
  }

  lemma AmountsInRange(r: Record<int>)
    requires AreInts(Values(r))
    ensures forall i :: 0 <= i < |r| ==> IsInt(r[i].1)
  {
    forall i | 0 <= i < |r| ensures IsInt(r[i].1) {
      assert Values(r)[i] == r[i].1;
    }
  }

  lemma EncodableParts(r: SystemReport<int>)
    requires Encodable(Params(r))
    ensures forall i :: 0 <= i < |r.streams| ==> WellFormed(r.streams[i].id) && IsUint(r.streams[i].capture)
    ensures forall i :: 0 <= i < |r.consumers| ==> IsUint(r.consumers[i].capture)
    ensures forall i :: 0 <= i < |r.nodes| ==> IsInt(r.nodes[i].1)
    ensures forall i :: 0 <= i < |r.delegates| ==> AreInts(Values(r.delegates[i].1))
  {
    var c := Params(r);
    forall i | 0 <= i < |r.streams| ensures WellFormed(r.streams[i].id) && IsUint(r.streams[i].capture) {
      assert c.streams[i] == r.streams[i].id && c.writeCaptureAmounts[i] == r.streams[i].capture;
    }
    forall i | 0 <= i < |r.consumers| ensures IsUint(r.consumers[i].capture) {
      assert c.readCaptureAmounts[i] == r.consumers[i].capture;
    }
    AmountsInRange(r.nodes);
    forall i | 0 <= i < |r.delegates| ensures AreInts(Values(r.delegates[i].1)) {
      assert c.delegateNodeChanges[i] == Values(r.delegates[i].1);
    }
  }

  /** For every report that can be sent at all, the contract hashes exactly the bytes that the node signed, unless
      the timestamp is zero: then the node leaves it out, while the contract hashes the zero. */
  lemma SameHash(r: SystemReport<int>, proofs: Proofs, timestamp: Uint256)
    requires Encodable(Params(r))
    ensures var p := OnChain(Params(r), proofs);
            && ContentOf(p).Ok?
            && (ToHash(Plain(r), timestamp)
                == Some(Preimage(p.id, p.blockHeight, PackContent(ContentOf(p).value), p.treasurySupplyChange,
                                 timestamp))
                <==> timestamp > 0)
  {
    RebuiltReport(r, proofs);
    EncodableParts(r);
    StreamBytes(r.streams);
    ConsumerBytes(r.consumers);
    AmountBytes(r.nodes);
    DelegateBytes(r.delegates);
    WireText(r.treasury);
  }
}
