/** The packed bytes read back: which byte is where, and that numbers can be told apart. */
module Packing {
  import opened Arithmetic
  import opened Evm
  import opened HexStrings
  import opened Reports

  function Pow256(k: nat): nat {
    if k == 0 then 1 else 0x100 * Pow256(k - 1)
  }

  lemma {:induction false} PowPositive(k: nat)
    ensures Pow256(k) >= 1
  {
    if k > 0 {
      PowPositive(k - 1);
    }
  }

  lemma {:induction false} DivTwice(n: nat, k: nat)
    ensures Pow256(k) > 0 && n / 0x100 / Pow256(k) == n / Pow256(k + 1)
  {
    PowPositive(k);
    var m, p := n / 0x100, Pow256(k);
    DivMod(m, p);
    DivNonNegative(m, p);
    assert n == (m / p) * (0x100 * p) + (m % p * 0x100 + n % 0x100) by {
      assert (m / p) * (0x100 * p) == (m / p) * p * 0x100;
    }
    assert m % p * 0x100 + n % 0x100 < 0x100 * p by {
      assert m % p + 1 <= p;
    }
    DivUnique(n, 0x100 * p, m / p, m % p * 0x100 + n % 0x100);
  }

  /** `abi.encodePacked` writes a number most significant byte first. */
  lemma {:induction false} BigEndianAt(n: nat, k: nat, i: nat)
    requires i < k
    ensures Pow256(k - 1 - i) > 0 && BigEndian(n, k)[i] == n / Pow256(k - 1 - i) % 0x100
  {
    PowPositive(k - 1 - i);
    if i < k - 1 {
      BigEndianAt(n / 0x100, k - 1, i);
      DivTwice(n, k - 2 - i);
    } else {
      assert Pow256(0) == 1 && n / 1 == n;
    }
  }

  /** The number that a sequence of bytes stands for, read from the left. */
  function Number(b: Bytes): nat {
    if b == [] then 0 else b[0] * Pow256(|b| - 1) + Number(b[1..])
  }

  lemma {:induction false} NumberAppend(b: Bytes, last: Byte)
    ensures Number(b + [last]) == Number(b) * 0x100 + last
  {
    if b == [] {
      assert ([last])[1..] == [];
    } else {
      assert (b + [last])[1..] == b[1..] + [last];
      NumberAppend(b[1..], last);
      assert b[0] * Pow256(|b|) == b[0] * Pow256(|b| - 1) * 0x100 by {
        assert Pow256(|b|) == 0x100 * Pow256(|b| - 1);
      }
    }
  }

  /** A number that fits is read off its bytes again. */
  lemma {:induction false} BigEndianNumber(n: nat, k: nat)
    requires n < Pow256(k)
    ensures Number(BigEndian(n, k)) == n
  {
    if k > 0 {
      BigEndianNumber(n / 0x100, k - 1);
      NumberAppend(BigEndian(n / 0x100, k - 1), n % 0x100);
    }
  }

  lemma WordSizes()
    ensures Pow256(32) == UINT256_MAX + 1
    ensures Pow256(20) == ADDRESS_MAX + 1
    ensures UINT256_MAX == 2 * INT256_MAX + 1
  {
    assert Pow256(4) == 0x1_0000_0000;
    assert Pow256(8) == 0x1_0000_0000_0000_0000;
    assert Pow256(12) == 0x1_0000_0000_0000_0000_0000_0000;
    assert Pow256(16) == 0x1_0000_0000_0000_0000_0000_0000_0000_0000;
    assert Pow256(20) == 0x1_0000_0000_0000_0000_0000_0000_0000_0000_0000_0000;
    assert Pow256(24) == 0x1_0000_0000_0000_0000_0000_0000_0000_0000_0000_0000_0000_0000;
    assert Pow256(28) == 0x1_0000_0000_0000_0000_0000_0000_0000_0000_0000_0000_0000_0000_0000_0000;
  }

  /** A packed `uint256` is 32 bytes long, a packed `address` 20, and both are read off their bytes again. */
  lemma PackedNumbers(n: Uint256, a: Address)
    ensures |PackUint(n)| == 32 && Number(PackUint(n)) == n
    ensures |PackAddress(a)| == 20 && Number(PackAddress(a)) == a
  {
    WordSizes();
    BigEndianNumber(n, 32);
    BigEndianNumber(a, 20);
  }

  lemma PackInjective(m: Uint256, n: Uint256, a: Address, b: Address)
    ensures PackUint(m) == PackUint(n) <==> m == n
    ensures PackAddress(a) == PackAddress(b) <==> a == b
  {
    PackedNumbers(m, a);
    PackedNumbers(n, b);
  }

  // ----- the layout of the preimage

  /** After the id come 32 bytes of height, then the pack, then the text of the treasury change; the last 32 bytes
      are the timestamp. */
  lemma PreimageLayout(id: Bytes, height: Uint256, pack: Bytes, treasury: Int256, timestamp: Uint256)
    ensures var b, text := Preimage(id, height, pack, treasury, timestamp), Hex(treasury);
            var middle := |id| + 32 + |pack|;
            && |b| == middle + |text| + 32
            && b[..|id|] == id
            && Number(b[|id|..|id| + 32]) == height
            && b[|id| + 32..middle] == pack
            && b[middle..middle + |text|] == text
            && Number(b[middle + |text|..]) == timestamp
  {
    PackedNumbers(height, 0);
    PackedNumbers(timestamp, 0);
    var b, text := Preimage(id, height, pack, treasury, timestamp), Hex(treasury);
    var middle := |id| + 32 + |pack|;
    assert b[|id|..|id| + 32] == PackUint(height);
    assert b[middle + |text|..] == PackUint(timestamp);
    assert b[|id| + 32..middle] == pack && b[middle..middle + |text|] == text;
  }

  /** Two reports with the same id and different heights never have the same preimage, nor have two proofs of one
      report at different times. */
  lemma PreimagesDiffer(id: Bytes, height: Uint256, pack: Bytes, treasury: Int256, timestamp: Uint256,
                        height': Uint256, pack': Bytes, treasury': Int256, timestamp': Uint256)
    requires Preimage(id, height, pack, treasury, timestamp) == Preimage(id, height', pack', treasury', timestamp')
    ensures height == height' && timestamp == timestamp'
  {
    var b := Preimage(id, height, pack, treasury, timestamp);
    PreimageLayout(id, height, pack, treasury, timestamp);
    PreimageLayout(id, height', pack', treasury', timestamp');
    assert b[|id| + 32 + |pack| + |Hex(treasury)|..] == b[|b| - 32..];
    assert b[|id| + 32 + |pack'| + |Hex(treasury')|..] == b[|b| - 32..];
  }

  // ----- the layout of the pack

  lemma Assoc(p: Bytes, a: Bytes, b: Bytes, c: Bytes)
    ensures p + a + b + c == p + (a + b + c) && p + a + b == p + (a + b)
  {
  }

  /** Where the parts of a concatenation are. */
  lemma Parts(a: Bytes, b: Bytes, c: Bytes)
    ensures var s := a + b + c;
            && |s| == |a| + |b| + |c|
            && s[..|a|] == a && s[|a|..|a| + |b|] == b && s[|a| + |b|..] == c
  {
  }

  /** A stream's share of the pack: its id, the text of the captured amount, and 32 bytes with the byte count. */
  function StreamShare(e: StreamEntry): Bytes {
    e.id + Hex(e.writeCapture) + PackUint(e.writeBytes)
  }

  function ConsumerShare(e: ConsumerEntry): Bytes {
    PackAddress(e.id) + Hex(e.readCapture) + PackUint(e.readBytes)
  }

  function NodeShare(e: NodeEntry): Bytes {
    PackAddress(e.id) + Hex(e.amount)
  }

  function DelegateShare(e: DelegateEntry): Bytes {
    PackAddress(e.id) + PackNodes(e.nodes)
  }

  /** Packing puts the shares one behind the other. */
  lemma SharesInOrder(streams: seq<StreamEntry>, stream: StreamEntry, consumers: seq<ConsumerEntry>,
                      consumer: ConsumerEntry, nodes: seq<NodeEntry>, node: NodeEntry, delegates: seq<DelegateEntry>,
                      delegate: DelegateEntry)
    ensures PackStreams([]) == [] && PackConsumers([]) == [] && PackNodes([]) == [] && PackDelegates([]) == []
    ensures PackStreams(streams + [stream]) == PackStreams(streams) + StreamShare(stream)
    ensures PackConsumers(consumers + [consumer]) == PackConsumers(consumers) + ConsumerShare(consumer)
    ensures PackNodes(nodes + [node]) == PackNodes(nodes) + NodeShare(node)
    ensures PackDelegates(delegates + [delegate]) == PackDelegates(delegates) + DelegateShare(delegate)
  {
    StreamsAppend(streams, stream);
    ConsumersAppend(consumers, consumer);
    NodesAppend(nodes, node);
    DelegatesAppend(delegates, delegate);
  }

  lemma StreamsAppend(s: seq<StreamEntry>, e: StreamEntry)
    ensures PackStreams(s + [e]) == PackStreams(s) + StreamShare(e)
  {
    assert (s + [e])[..|s|] == s;
    Assoc(PackStreams(s), e.id, Hex(e.writeCapture), PackUint(e.writeBytes));
  }

  lemma ConsumersAppend(s: seq<ConsumerEntry>, e: ConsumerEntry)
    ensures PackConsumers(s + [e]) == PackConsumers(s) + ConsumerShare(e)
  {
    assert (s + [e])[..|s|] == s;
    Assoc(PackConsumers(s), PackAddress(e.id), Hex(e.readCapture), PackUint(e.readBytes));
  }

  lemma NodesAppend(s: seq<NodeEntry>, e: NodeEntry)
    ensures PackNodes(s + [e]) == PackNodes(s) + NodeShare(e)
  {
    assert (s + [e])[..|s|] == s;
    Assoc(PackNodes(s), PackAddress(e.id), Hex(e.amount), []);
  }

  lemma DelegatesAppend(s: seq<DelegateEntry>, e: DelegateEntry)
    ensures PackDelegates(s + [e]) == PackDelegates(s) + DelegateShare(e)
  {
    assert (s + [e])[..|s|] == s;
    Assoc(PackDelegates(s), PackAddress(e.id), PackNodes(e.nodes), []);
  }

  lemma OneStream(e: StreamEntry)
    ensures var b, text := StreamShare(e), Hex(e.writeCapture);
            && |b| == |e.id| + |text| + 32
            && b[..|e.id|] == e.id
            && b[|e.id|..|e.id| + |text|] == text && Parse(text) == Some(e.writeCapture)
            && Number(b[|e.id| + |text|..]) == e.writeBytes
  {
    PackedNumbers(e.writeBytes, 0);
    HexParses(e.writeCapture);
    Parts(e.id, Hex(e.writeCapture), PackUint(e.writeBytes));
  }

  lemma OneConsumer(e: ConsumerEntry)
    ensures var b, text := ConsumerShare(e), Hex(e.readCapture);
            && |b| == 20 + |text| + 32
            && Number(b[..20]) == e.id
            && b[20..20 + |text|] == text && Parse(text) == Some(e.readCapture)
            && Number(b[20 + |text|..]) == e.readBytes
  {
    PackedNumbers(e.readBytes, e.id);
    HexParses(e.readCapture);
    Parts(PackAddress(e.id), Hex(e.readCapture), PackUint(e.readBytes));
  }

  /** A node's share: 20 bytes of address and the text of the signed change. */
  lemma OneNode(e: NodeEntry)
    ensures var b, text := NodeShare(e), Hex(e.amount);
            |b| == 20 + |text| && Number(b[..20]) == e.id && b[20..] == text && Parse(text) == Some(e.amount)
  {
    PackedNumbers(0, e.id);
    HexParses(e.amount);
  }

  /** A delegate's share: 20 bytes of address and the shares of its nodes. */
  lemma OneDelegate(e: DelegateEntry)
    ensures var b := DelegateShare(e);
            |b| >= 20 && Number(b[..20]) == e.id && b[20..] == PackNodes(e.nodes)
  {
    PackedNumbers(0, e.id);
  }

  /** The pack of a report: streams, consumers, nodes, delegates, in this order. */
  lemma PackLayout(c: Content)
    ensures var n1 := |PackStreams(c.streams)|;
            var n2 := n1 + |PackConsumers(c.consumers)|;
            var n3 := n2 + |PackNodes(c.nodes)|;
            && n3 <= |PackContent(c)|
            && PackContent(c)[..n1] == PackStreams(c.streams)
            && PackContent(c)[n1..n2] == PackConsumers(c.consumers)
            && PackContent(c)[n2..n3] == PackNodes(c.nodes)
            && PackContent(c)[n3..] == PackDelegates(c.delegates)
  {
    FourParts(PackStreams(c.streams), PackConsumers(c.consumers), PackNodes(c.nodes), PackDelegates(c.delegates));
  }

  lemma FourParts(a: Bytes, b: Bytes, c: Bytes, d: Bytes)
    ensures var s, n1, n2, n3 := a + b + c + d, |a|, |a| + |b|, |a| + |b| + |c|;
            n3 <= |s| && s[..n1] == a && s[n1..n2] == b && s[n2..n3] == c && s[n3..] == d
  {
    var s := a + b + c + d;
    Parts(a + b, c, d);
    Parts(a, b, c + d);
    Assoc(a + b, c, d, []);
    assert s == a + b + (c + d);
  }
}
