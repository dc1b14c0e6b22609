/** ReportSerializerV1 of the protocol package: wire format, contract parameters and hash preimage. */
module Serializer {
  import opened Evm
  import opened HexStrings
  import opened Reports
  import opened Sequences
  import opened Text

  // ----- JavaScript objects with address keys

  /** The entries of an object in insertion order. */
  type Record<V> = seq<(Address, V)>

  function Map<A, B>(f: A -> B, s: seq<A>): (t: seq<B>)
    ensures |t| == |s|
    ensures forall i :: 0 <= i < |s| ==> t[i] == f(s[i])
  {
    if s == [] then [] else Map(f, s[..|s| - 1]) + [f(s[|s| - 1])]
  }

  function Key<V>(e: (Address, V)): Address {
    e.0
  }

  function Val<V>(e: (Address, V)): V {
    e.1
  }

  function Keys<V>(r: Record<V>): seq<Address> {
    Map(Key, r)
  }

  function Values<V>(r: Record<V>): seq<V> {
    Map(Val, r)
  }

  /** An object has every key once. */
  predicate Proper<V>(r: Record<V>) {
    Distinct(Keys(r))
  }

  /** `r[k] = v`: replace the entry in place, or append one. */
  function Assign<V>(r: Record<V>, k: Address, v: V): Record<V> {
    if r == [] then [(k, v)]
    else if r[0].0 == k then [(k, v)] + r[1..]
    else [r[0]] + Assign(r[1..], k, v)
  }

  /** `r[k]` for a key of the object. */
  function Lookup<V>(r: Record<V>, k: Address): V
    requires k in Keys(r)
  {
    if r[0].0 == k then r[0].1 else LookupTail(r, k); Lookup(r[1..], k)
  }

  lemma LookupTail<V>(r: Record<V>, k: Address)
    requires k in Keys(r) && r[0].0 != k
    ensures k in Keys(r[1..])
  {
    var i :| 0 <= i < |r| && Keys(r)[i] == k;
    assert Keys(r[1..])[i - 1] == k;
  }

  lemma {:induction false} AssignNew<V>(r: Record<V>, k: Address, v: V)
    requires k !in Keys(r)
    ensures Assign(r, k, v) == r + [(k, v)]
  {
    if r != [] {
      assert Keys(r)[0] == r[0].0;
      forall i | 0 <= i < |r[1..]| ensures Keys(r[1..])[i] != k {
        assert Keys(r)[i + 1] == Keys(r[1..])[i];
      }
      AssignNew(r[1..], k, v);
    }
  }

  // ----- reports, with numbers of type `N`: BigNumbers in memory, hexadecimal text on the wire

  datatype Stream<N> = Stream(id: Str, capture: N, bytes: Uint256)
  datatype Consumer<N> = Consumer(id: Address, capture: N, bytes: Uint256)
  datatype StorageEvent = StorageEvent(id: Str, hash: Str, size: nat)
  datatype QueryEvent = QueryEvent(id: Str, hash: Str, size: nat, query: Str, consumer: Str)
  datatype Events = Events(queries: seq<QueryEvent>, storage: seq<StorageEvent>)

  datatype SystemReport<N> = SystemReport(
    id: Str,
    height: Uint256,
    treasury: N,
    streams: seq<Stream<N>>,
    consumers: seq<Consumer<N>>,
    nodes: Record<N>,
    delegates: Record<Record<N>>,
    events: Option<Events>
  )

  /** The flag `s` tells the two forms apart. */
  datatype Payload = Plain(plain: SystemReport<int>) | Wire(wire: SystemReport<Str>)

  predicate ProperReport<N>(r: SystemReport<N>) {
    && Proper(r.nodes)
    && Proper(r.delegates)
    && forall i :: 0 <= i < |r.delegates| ==> Proper(r.delegates[i].1)
  }

  // ----- serialize

  function WireStream(p: Stream<int>): Stream<Str> {
    Stream(StrToHex(p.id), BigNumberHex(p.capture), p.bytes)
  }

  function WireConsumer(p: Consumer<int>): Consumer<Str> {
    Consumer(p.id, BigNumberHex(p.capture), p.bytes)
  }

  function WireAmount(e: (Address, int)): (Address, Str) {
    (e.0, BigNumberHex(e.1))
  }

  function WireDelegate(e: (Address, Record<int>)): (Address, Record<Str>) {
    (e.0, Map(WireAmount, e.1))
  }

  function WireStorage(p: StorageEvent): StorageEvent {
    p.(id := StrToHex(p.id))
  }

  function WireEvents(events: Option<Events>): Option<Events> {
    match events
    case None => None
    case Some(e) => Some(e.(storage := Map(WireStorage, e.storage)))
  }

  function Serialize(r: SystemReport<int>): SystemReport<Str> {
    SystemReport(r.id, r.height, BigNumberHex(r.treasury), Map(WireStream, r.streams), Map(WireConsumer, r.consumers),
           Map(WireAmount, r.nodes), Map(WireDelegate, r.delegates), WireEvents(r.events))
  }

  // ----- deserialize

  function All<A, B>(f: A -> Option<B>, s: seq<A>): Option<seq<B>> {
    if s == [] then Some([]) else
    match All(f, s[..|s| - 1])
    case None => None
    case Some(rest) =>
      match f(s[|s| - 1])
      case None => None
      case Some(last) => Some(rest + [last])
  }

  function PlainStream(p: Stream<Str>): Option<Stream<int>> {
    match HexToStr(p.id)
    case None => None
    case Some(id) =>
      match Parse(p.capture)
      case None => None
      case Some(capture) => Some(Stream(id, capture, p.bytes))
  }

  function PlainConsumer(p: Consumer<Str>): Option<Consumer<int>> {
    match Parse(p.capture)
    case None => None
    case Some(capture) => Some(Consumer(p.id, capture, p.bytes))
  }

  function PlainAmount(e: (Address, Str)): Option<(Address, int)> {
    match Parse(e.1)
    case None => None
    case Some(v) => Some((e.0, v))
  }

  function PlainDelegate(e: (Address, Record<Str>)): Option<(Address, Record<int>)> {
    match All(PlainAmount, e.1)
    case None => None
    case Some(records) => Some((e.0, records))
  }

  function PlainStorage(p: StorageEvent): Option<StorageEvent> {
    match HexToStr(p.id)
    case None => None
    case Some(id) => Some(p.(id := id))
  }

  function PlainEvents(events: Option<Events>): Option<Option<Events>> {
    match events
    case None => Some(None)
    case Some(e) =>
      match All(PlainStorage, e.storage)
      case None => None
      case Some(storage) => Some(Some(e.(storage := storage)))
  }

  /** `None` where the original throws on malformed text. */
  function Deserialize(r: SystemReport<Str>): Option<SystemReport<int>> {
    var treasury, streams := Parse(r.treasury), All(PlainStream, r.streams);
    var consumers, nodes := All(PlainConsumer, r.consumers), All(PlainAmount, r.nodes);
    var delegates, events := All(PlainDelegate, r.delegates), PlainEvents(r.events);
    if treasury.Some? && streams.Some? && consumers.Some? && nodes.Some? && delegates.Some? && events.Some? then
      Some(SystemReport(r.id, r.height, treasury.value, streams.value, consumers.value, nodes.value, delegates.value,
                        events.value))
    else None
  }

  // ----- the round trip

  lemma {:induction false} AllMap<A, B>(f: A -> B, g: B -> Option<A>, clean: A -> A, s: seq<A>)
    requires forall i :: 0 <= i < |s| ==> g(f(s[i])) == Some(clean(s[i]))
    ensures All(g, Map(f, s)) == Some(Map(clean, s))
  {
    if s != [] {
      var most := s[..|s| - 1];
      forall i | 0 <= i < |most| ensures g(f(most[i])) == Some(clean(most[i])) {
        assert most[i] == s[i];
      }
      AllMap(f, g, clean, most);
      assert Map(f, s)[..|s| - 1] == Map(f, most);
    }
  }

  function Same<A>(a: A): A {
    a
  }

  lemma MapSame<A>(s: seq<A>)
    ensures Map(Same, s) == s
  {
  }

  function CleanStream(p: Stream<int>): Stream<int> {
    p.(id := Scalars(p.id))
  }

  function CleanStorage(p: StorageEvent): StorageEvent {
    p.(id := Scalars(p.id))
  }

  /** The report with every lone surrogate in a stream or storage id replaced. */
  function Clean(r: SystemReport<int>): SystemReport<int> {
    r.(streams := Map(CleanStream, r.streams),
       events := match r.events
                 case None => None
                 case Some(e) => Some(e.(storage := Map(CleanStorage, e.storage))))
  }

  lemma StreamsBack(s: seq<Stream<int>>)
    ensures All(PlainStream, Map(WireStream, s)) == Some(Map(CleanStream, s))
  {
    forall i | 0 <= i < |s| ensures PlainStream(WireStream(s[i])) == Some(CleanStream(s[i])) {
      HexRoundTrip(s[i].id);
      SameText(s[i].capture);
      HexParses(s[i].capture);
    }
    AllMap(WireStream, PlainStream, CleanStream, s);
  }

  lemma ConsumersBack(s: seq<Consumer<int>>)
    ensures All(PlainConsumer, Map(WireConsumer, s)) == Some(s)
  {
    forall i | 0 <= i < |s| ensures PlainConsumer(WireConsumer(s[i])) == Some(Same(s[i])) {
      SameText(s[i].capture);
      HexParses(s[i].capture);
    }
    AllMap(WireConsumer, PlainConsumer, Same, s);
    MapSame(s);
  }

  lemma AmountsBack(r: Record<int>)
    ensures All(PlainAmount, Map(WireAmount, r)) == Some(r)
  {
    forall i | 0 <= i < |r| ensures PlainAmount(WireAmount(r[i])) == Some(Same(r[i])) {
      SameText(r[i].1);
      HexParses(r[i].1);
    }
    AllMap(WireAmount, PlainAmount, Same, r);
    MapSame(r);
  }

  lemma DelegatesBack(r: Record<Record<int>>)
    ensures All(PlainDelegate, Map(WireDelegate, r)) == Some(r)
  {
    forall i | 0 <= i < |r| ensures PlainDelegate(WireDelegate(r[i])) == Some(Same(r[i])) {
      AmountsBack(r[i].1);
    }
    AllMap(WireDelegate, PlainDelegate, Same, r);
    MapSame(r);
  }

  lemma StorageBack(s: seq<StorageEvent>)
    ensures All(PlainStorage, Map(WireStorage, s)) == Some(Map(CleanStorage, s))
  {
    forall i | 0 <= i < |s| ensures PlainStorage(WireStorage(s[i])) == Some(CleanStorage(s[i])) {
      HexRoundTrip(s[i].id);
    }
    AllMap(WireStorage, PlainStorage, CleanStorage, s);
  }

  lemma SerializeBack(r: SystemReport<int>)
    ensures Deserialize(Serialize(r)) == Some(Clean(r))
  {
    SameText(r.treasury);
    HexParses(r.treasury);
    StreamsBack(r.streams);
    ConsumersBack(r.consumers);
    AmountsBack(r.nodes);
    DelegatesBack(r.delegates);
    if r.events.Some? {
      StorageBack(r.events.value.storage);
    }
  }

  ghost predicate IdsWellFormed(r: SystemReport<int>) {
    && (forall i :: 0 <= i < |r.streams| ==> WellFormed(r.streams[i].id))
    && (r.events.Some? ==> forall i :: 0 <= i < |r.events.value.storage| ==> WellFormed(r.events.value.storage[i].id))
  }

  lemma CleanStreamsSame(s: seq<Stream<int>>)
    ensures Map(CleanStream, s) == s <==> forall i :: 0 <= i < |s| ==> WellFormed(s[i].id)
  {
    forall i | 0 <= i < |s| ensures CleanStream(s[i]) == s[i] <==> WellFormed(s[i].id) {
      ScalarsSame(s[i].id);
    }
    var clean := Map(CleanStream, s);
    assert clean == s <==> forall i :: 0 <= i < |s| ==> clean[i] == s[i];
  }

  lemma CleanStorageSame(s: seq<StorageEvent>)
    ensures Map(CleanStorage, s) == s <==> forall i :: 0 <= i < |s| ==> WellFormed(s[i].id)
  {
    forall i | 0 <= i < |s| ensures CleanStorage(s[i]) == s[i] <==> WellFormed(s[i].id) {
      ScalarsSame(s[i].id);
    }
    var clean := Map(CleanStorage, s);
    assert clean == s <==> forall i :: 0 <= i < |s| ==> clean[i] == s[i];
  }

  /** Serializing loses nothing exactly if no stream or storage id holds a lone surrogate. */
  lemma SerializeRoundTrip(r: SystemReport<int>)
    ensures Deserialize(Serialize(r)) == Some(r) <==> IdsWellFormed(r)
  {
    SerializeBack(r);
    CleanStreamsSame(r.streams);
    if r.events.Some? {
      CleanStorageSame(r.events.value.storage);
    }
  }

  // ----- toContract

  datatype ContractParams = ContractParams(
    id: Str,
    blockHeight: Uint256,
    streams: seq<Str>,
    writeCaptureAmounts: seq<int>,
    writeBytes: seq<Uint256>,
    readConsumerAddresses: seq<Address>,
    readCaptureAmounts: seq<int>,
    readBytes: seq<Uint256>,
    nodes: seq<Address>,
    nodeChanges: seq<int>,
    delegates: seq<Address>,
    delegateNodes: seq<seq<Address>>,
    delegateNodeChanges: seq<seq<int>>,
    treasurySupplyChange: int
  )

  function Params(r: SystemReport<int>): ContractParams {
    ContractParams(
      r.id, r.height,
      Map((p: Stream<int>) => p.id, r.streams),
      Map((p: Stream<int>) => p.capture, r.streams),
      Map((p: Stream<int>) => p.bytes, r.streams),
      Map((p: Consumer<int>) => p.id, r.consumers),
      Map((p: Consumer<int>) => p.capture, r.consumers),
      Map((p: Consumer<int>) => p.bytes, r.consumers),
      Keys(r.nodes),
      Values(r.nodes),
      Keys(r.delegates),
      Map((e: (Address, Record<int>)) => Keys(e.1), r.delegates),
      Map((e: (Address, Record<int>)) => Values(e.1), r.delegates),
      r.treasury)
  }

  function ToContract(p: Payload): Option<ContractParams> {
    match p
    case Plain(r) => Some(Params(r))
    case Wire(r) =>
      match Deserialize(r)
      case None => None
      case Some(plain) => Some(Params(plain))
  }

  // ----- toHash: the bytes that are hashed

  function HashStreams(s: seq<Stream<Str>>): Option<Bytes> {
    if s == [] then Some([]) else
    var last := s[|s| - 1];
    match HashStreams(s[..|s| - 1])
    case None => None
    case Some(pack) =>
      match HexToStr(last.id)
      case None => None
      case Some(id) => Some(pack + Utf8(id) + Utf8(last.capture) + PackUint(last.bytes))
  }

  function HashConsumers(s: seq<Consumer<Str>>): Bytes {
    if s == [] then [] else
    var last := s[|s| - 1];
    HashConsumers(s[..|s| - 1]) + PackAddress(last.id) + Utf8(last.capture) + PackUint(last.bytes)
  }

  function HashAmounts(r: Record<Str>): Bytes {
    if r == [] then [] else
    var (id, amount) := r[|r| - 1];
    HashAmounts(r[..|r| - 1]) + PackAddress(id) + Utf8(amount)
  }

  function HashDelegates(r: Record<Record<Str>>): Bytes {
    if r == [] then [] else
    var (id, nodes) := r[|r| - 1];
    HashDelegates(r[..|r| - 1]) + PackAddress(id) + HashAmounts(nodes)
  }

  /** The preimage over the wire form; a zero timestamp counts as absent. */
  function HashPreimage(r: SystemReport<Str>, timestamp: Uint256): Option<Bytes> {
    match HashStreams(r.streams)
    case None => None
    case Some(streams) =>
      Some(Utf8(r.id) + PackUint(r.height)
           + (streams + HashConsumers(r.consumers) + HashAmounts(r.nodes) + HashDelegates(r.delegates))
           + Utf8(r.treasury) + (if timestamp == 0 then [] else PackUint(timestamp)))
  }

  function ToHash(p: Payload, timestamp: Uint256): Option<Bytes> {
    match p
    case Plain(r) => HashPreimage(Serialize(r), timestamp)
    case Wire(r) => HashPreimage(r, timestamp)
  }

  /** Both forms of a report have the same hash. */
  lemma FormsHashAlike(r: SystemReport<int>, timestamp: Uint256)
    ensures ToHash(Wire(Serialize(r)), timestamp) == ToHash(Plain(r), timestamp)
  {
  }

  /** Both forms lead to the same contract call exactly if no stream id holds a lone surrogate. */
  lemma FormsAgreeIff(r: SystemReport<int>)
    ensures ToContract(Wire(Serialize(r))) == ToContract(Plain(r))
       <==> forall i :: 0 <= i < |r.streams| ==> WellFormed(r.streams[i].id)
  {
    SerializeBack(r);
    CleanIdsSame(r);
    OnlyIdsCleaned(r);
  }

  /** Cleaning a report touches nothing of the contract call but the stream ids. */
  lemma OnlyIdsCleaned(r: SystemReport<int>)
    ensures Params(Clean(r)) == Params(r).(streams := Params(Clean(r)).streams)
  {
    var params, cleaned := Params(r), Params(Clean(r));
    assert params.writeCaptureAmounts == cleaned.writeCaptureAmounts;
    assert params.writeBytes == cleaned.writeBytes;
  }

  lemma CleanIdsSame(r: SystemReport<int>)
    ensures Params(Clean(r)).streams == Params(r).streams
       <==> forall i :: 0 <= i < |r.streams| ==> WellFormed(r.streams[i].id)
  {
    var ids, clean := Params(r).streams, Params(Clean(r)).streams;
    forall i | 0 <= i < |ids| ensures clean[i] == ids[i] <==> WellFormed(r.streams[i].id) {
      ScalarsSame(r.streams[i].id);
    }
    assert clean == ids <==> forall i :: 0 <= i < |ids| ==> clean[i] == ids[i];
  }

  // ----- the loops of the original

  lemma {:induction false} AssignLast<V>(r: Record<V>, k: Address, v: V, v': V)
    requires k !in Keys(r)
    ensures Assign(r + [(k, v)], k, v') == r + [(k, v')]
    ensures k in Keys(r + [(k, v)]) && Lookup(r + [(k, v)], k) == v
  {
    assert Keys(r + [(k, v)])[|r|] == k;
    if r != [] {
      assert Keys(r)[0] == r[0].0;
      forall i | 0 <= i < |r[1..]| ensures Keys(r[1..])[i] != k {
        assert Keys(r)[i + 1] == Keys(r[1..])[i];
      }
      AssignLast(r[1..], k, v, v');
      assert (r + [(k, v)])[1..] == r[1..] + [(k, v)];
    }
  }

  /** While an object is copied entry by entry, the next key is always new. */
  lemma NextKeyNew<A, B>(entries: Record<A>, copy: Record<B>, i: nat)
    requires Proper(entries) && i < |entries| && |copy| == i
    requires forall j :: 0 <= j < i ==> copy[j].0 == entries[j].0
    ensures entries[i].0 !in Keys(copy)
  {
    if entries[i].0 in Keys(copy) {
      var j :| 0 <= j < i && Keys(copy)[j] == entries[i].0;
      assert Keys(entries)[j] == entries[j].0 && Keys(entries)[i] == entries[i].0;
      DistinctAt(Keys(entries), j, i);
    }
  }

  method SerializeNodes(entries: Record<int>) returns (nodes: Record<Str>)
    requires Proper(entries)
    ensures nodes == Map(WireAmount, entries)
  {
    nodes := [];
    for i := 0 to |entries|
      invariant |nodes| == i
      invariant forall j :: 0 <= j < i ==> nodes[j] == WireAmount(entries[j])
    {
      NextKeyNew(entries, nodes, i);
      AssignNew(nodes, entries[i].0, BigNumberHex(entries[i].1));
      nodes := Assign(nodes, entries[i].0, BigNumberHex(entries[i].1));
    }
  }

  /** The inner loop: fill the object that was just added under `address`. */
  method SerializeRecords(delegates: Record<Record<Str>>, ghost done: Record<Record<Str>>, address: Address,
                          records: Record<int>)
    returns (result: Record<Record<Str>>)
    requires Proper(records) && address !in Keys(done) && delegates == done + [(address, [])]
    ensures result == done + [(address, Map(WireAmount, records))]
  {
    result := delegates;
    ghost var copied: Record<Str> := [];
    for j := 0 to |records|
      invariant result == done + [(address, copied)] && |copied| == j
      invariant forall i :: 0 <= i < j ==> copied[i] == WireAmount(records[i])
    {
      var node: Address := records[j].0;
      var text: Str := BigNumberHex(records[j].1);
      NextKeyNew(records, copied, j);
      AssignNew(copied, node, text);
      AssignLast(done, address, copied, copied + [(node, text)]);
      result := Assign(result, address, Assign(Lookup(result, address), node, text));
      copied := copied + [(node, text)];
    }
    assert copied == Map(WireAmount, records);
  }

  /** The outer loop's body: add an empty object under the next address and fill it. */
  method SerializeDelegate(delegates: Record<Record<Str>>, entry: (Address, Record<int>))
    returns (result: Record<Record<Str>>)
    requires Proper(entry.1) && entry.0 !in Keys(delegates)
    ensures result == delegates + [WireDelegate(entry)]
  {
    var (address, records) := entry;
    AssignNew(delegates, address, []);
    result := if address !in Keys(delegates) then Assign(delegates, address, []) else delegates;
    result := SerializeRecords(result, delegates, address, records);
  }

  method SerializeDelegates(entries: Record<Record<int>>) returns (delegates: Record<Record<Str>>)
    requires Proper(entries) && forall i :: 0 <= i < |entries| ==> Proper(entries[i].1)
    ensures delegates == Map(WireDelegate, entries)
  {
    delegates := [];
    for i := 0 to |entries|
      invariant |delegates| == i
      invariant forall j :: 0 <= j < i ==> delegates[j] == WireDelegate(entries[j])
    {
      NextKeyNew(entries, delegates, i);
      delegates := SerializeDelegate(delegates, entries[i]);
    }
  }

  lemma {:induction false} AllFails<A, B>(f: A -> Option<B>, s: seq<A>, i: nat)
    requires i < |s| && f(s[i]) == None
    ensures All(f, s) == None
    decreases |s|
  {
    if i < |s| - 1 {
      AllFails(f, s[..|s| - 1], i);
    }
  }

  lemma {:induction false} AllSucceed<A, B>(f: A -> Option<B>, s: seq<A>, t: seq<B>)
    requires |s| == |t| && forall i :: 0 <= i < |s| ==> f(s[i]) == Some(t[i])
    ensures All(f, s) == Some(t)
  {
    if s != [] {
      AllSucceed(f, s[..|s| - 1], t[..|s| - 1]);
      assert t == t[..|s| - 1] + [t[|s| - 1]];
    }
  }

  method DeserializeNodes(entries: Record<Str>) returns (nodes: Option<Record<int>>)
    requires Proper(entries)
    ensures nodes == All(PlainAmount, entries)
  {
    var copy: Record<int> := [];
    for i := 0 to |entries|
      invariant |copy| == i && forall j :: 0 <= j < i ==> PlainAmount(entries[j]) == Some(copy[j])
    {
      var value := Parse(entries[i].1);
      if value == None {
        AllFails(PlainAmount, entries, i);
        return None;
      }
      NextKeyNew(entries, copy, i);
      AssignNew(copy, entries[i].0, value.value);
      copy := Assign(copy, entries[i].0, value.value);
    }
    AllSucceed(PlainAmount, entries, copy);
    return Some(copy);
  }

  /** The inner loop: fill the object that was just added under `address`. */
  method DeserializeRecords(delegates: Record<Record<int>>, ghost done: Record<Record<int>>, address: Address,
                            records: Record<Str>)
    returns (result: Option<Record<Record<int>>>)
    requires Proper(records) && address !in Keys(done) && delegates == done + [(address, [])]
    ensures result == match All(PlainAmount, records)
                      case None => None
                      case Some(plain) => Some(done + [(address, plain)])
  {
    var filled := delegates;
    ghost var copied: Record<int> := [];
    for j := 0 to |records|
      invariant filled == done + [(address, copied)] && |copied| == j
      invariant forall i :: 0 <= i < j ==> PlainAmount(records[i]) == Some(copied[i])
    {
      var value := Parse(records[j].1);
      if value == None {
        AllFails(PlainAmount, records, j);
        return None;
      }
      var node: Address := records[j].0;
      NextKeyNew(records, copied, j);
      AssignNew(copied, node, value.value);
      AssignLast(done, address, copied, copied + [(node, value.value)]);
      filled := Assign(filled, address, Assign(Lookup(filled, address), node, value.value));
      copied := copied + [(node, value.value)];
    }
    AllSucceed(PlainAmount, records, copied);
    return Some(filled);
  }

  method DeserializeDelegate(delegates: Record<Record<int>>, entry: (Address, Record<Str>))
    returns (result: Option<Record<Record<int>>>)
    requires Proper(entry.1) && entry.0 !in Keys(delegates)
    ensures result == match PlainDelegate(entry)
                      case None => None
                      case Some(plain) => Some(delegates + [plain])
  {
    var (address, records) := entry;
    AssignNew(delegates, address, []);
    var added := if address !in Keys(delegates) then Assign(delegates, address, []) else delegates;
    result := DeserializeRecords(added, delegates, address, records);
  }

  method DeserializeDelegates(entries: Record<Record<Str>>) returns (delegates: Option<Record<Record<int>>>)
    requires Proper(entries) && forall i :: 0 <= i < |entries| ==> Proper(entries[i].1)
    ensures delegates == All(PlainDelegate, entries)
  {
    var copy: Record<Record<int>> := [];
    for i := 0 to |entries|
      invariant |copy| == i && forall j :: 0 <= j < i ==> PlainDelegate(entries[j]) == Some(copy[j])
    {
      NextKeyNew(entries, copy, i);
      var filled := DeserializeDelegate(copy, entries[i]);
      if filled == None {
        AllFails(PlainDelegate, entries, i);
        return None;
      }
      copy := filled.value;
    }
    AllSucceed(PlainDelegate, entries, copy);
    return Some(copy);
  }

  method SerializeReport(r: SystemReport<int>) returns (w: SystemReport<Str>)
    requires ProperReport(r)
    ensures w == Serialize(r)
  {
    var nodes := SerializeNodes(r.nodes);
    var delegates := SerializeDelegates(r.delegates);
    w := SystemReport(r.id, r.height, BigNumberHex(r.treasury), Map(WireStream, r.streams),
                      Map(WireConsumer, r.consumers), nodes, delegates, WireEvents(r.events));
  }

  method DeserializeReport(w: SystemReport<Str>) returns (r: Option<SystemReport<int>>)
    requires ProperReport(w)
    ensures r == Deserialize(w)
  {
    var nodes := DeserializeNodes(w.nodes);
    var delegates := DeserializeDelegates(w.delegates);
    var treasury, streams, consumers := Parse(w.treasury), All(PlainStream, w.streams), All(PlainConsumer, w.consumers);
    var events := PlainEvents(w.events);
    if || treasury == None || streams == None || consumers == None || nodes == None || delegates == None
       || events == None
    {
      return None;
    }
    return Some(SystemReport(w.id, w.height, treasury.value, streams.value, consumers.value, nodes.value,
                             delegates.value, events.value));
  }

  lemma {:induction false} HashStreamsFails(s: seq<Stream<Str>>, i: nat)
    requires i < |s| && HexToStr(s[i].id) == None
    ensures HashStreams(s) == None
    decreases |s|
  {
    if i < |s| - 1 {
      HashStreamsFails(s[..|s| - 1], i);
    }
  }

  method HashNodes(nodes: Record<Str>) returns (pack: Bytes)
    ensures pack == HashAmounts(nodes)
  {
    pack := [];
    for i := 0 to |nodes|
      invariant pack == HashAmounts(nodes[..i])
    {
      assert nodes[..i + 1][..i] == nodes[..i];
      pack := pack + PackAddress(nodes[i].0) + Utf8(nodes[i].1);
    }
    assert nodes[..|nodes|] == nodes;
  }

  method HashStreamEntries(s: seq<Stream<Str>>) returns (pack: Option<Bytes>)
    ensures pack == HashStreams(s)
  {
    var bytes: Bytes := [];
    for i := 0 to |s|
      invariant HashStreams(s[..i]) == Some(bytes)
    {
      var id := HexToStr(s[i].id);
      if id == None {
        HashStreamsFails(s, i);
        return None;
      }
      assert s[..i + 1][..i] == s[..i];
      bytes := bytes + Utf8(id.value) + Utf8(s[i].capture) + PackUint(s[i].bytes);
    }
    assert s[..|s|] == s;
    return Some(bytes);
  }

  method HashConsumerEntries(s: seq<Consumer<Str>>) returns (pack: Bytes)
    ensures pack == HashConsumers(s)
  {
    pack := [];
    for i := 0 to |s|
      invariant pack == HashConsumers(s[..i])
    {
      assert s[..i + 1][..i] == s[..i];
      pack := pack + PackAddress(s[i].id) + Utf8(s[i].capture) + PackUint(s[i].bytes);
    }
    assert s[..|s|] == s;
  }

  method HashDelegateEntries(r: Record<Record<Str>>) returns (pack: Bytes)
    ensures pack == HashDelegates(r)
  {
    pack := [];
    for i := 0 to |r|
      invariant pack == HashDelegates(r[..i])
    {
      var nodes := HashNodes(r[i].1);
      assert r[..i + 1][..i] == r[..i];
      pack := pack + PackAddress(r[i].0) + nodes;
    }
    assert r[..|r|] == r;
  }

  /** `toHash` up to the final keccak256. */
  method HashInput(r: SystemReport<Str>, timestamp: Uint256) returns (input: Option<Bytes>)
    ensures input == HashPreimage(r, timestamp)
  {
    var streams := HashStreamEntries(r.streams);
    if streams == None {
      return None;
    }
    var consumers := HashConsumerEntries(r.consumers);
    var nodes := HashNodes(r.nodes);
    var delegates := HashDelegateEntries(r.delegates);
    return Some(Utf8(r.id) + PackUint(r.height) + (streams.value + consumers + nodes + delegates) + Utf8(r.treasury)
                + (if timestamp == 0 then [] else PackUint(timestamp)));
  }
}
