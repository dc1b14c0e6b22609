/** The contracts as objects with storage. Each method does what its Solidity original does and is proved
    against the function that specifies it. A method that reverts promises nothing about the storage it
    leaves: the transaction around it (see `Chain`) undoes every write. */
module Contracts {
  import opened Evm
  import opened Mappings
  import opened Registry
  import opened Reindexing
  import opened Reports

  import Consensus
  import NodeManager
  import Queries
  import Ranking
  import ReportManager
  import Schedule
  import Settlement
  import Stores
  import Token

  class StakeToken {
    var balances: Token.Ledger

    constructor (initial: Token.Ledger)
      ensures balances == initial
    {
      balances := initial;
    }

    method Transfer(from: Address, to: Address, amount: Uint256) returns (r: Outcome<()>)
      modifies this
      ensures match Token.Transfer(old(balances), from, to, amount)
              case Ok(ledger) => r == Ok(()) && balances == ledger
              case Revert(why) => r == Revert(why)
    {
      if Get(balances, from) < amount {
        return Revert(Token.EXCEEDS_BALANCE);
      }
      balances := balances[from := Get(balances, from) - amount];
      if Get(balances, to) + amount > UINT256_MAX {
        return Revert(PANIC_ARITHMETIC);
      }
      balances := balances[to := Get(balances, to) + amount];
      return Ok(());
    }
  }

  class LogStoreManager {
    var totalSupply: Uint256
    var stores: map<Bytes, Uint256>
    var storeStakeholders: map<Bytes, seq<Address>>
    var balanceOf: map<Address, Uint256>
    var storeBalanceOf: map<(Address, Bytes), Uint256>
    var captureOverflow: nat  // sums over the emitted events
    var supplyOverflow: nat

    const token: StakeToken
    const self: Address
    const parent: Address

    constructor (token: StakeToken, self: Address, parent: Address)
      ensures this.token == token && this.self == self && this.parent == parent
      ensures Storage() == Stores.EMPTY
    {
      this.token, this.self, this.parent := token, self, parent;
      totalSupply, captureOverflow, supplyOverflow := 0, 0, 0;
      stores, storeStakeholders, balanceOf, storeBalanceOf := map[], map[], map[], map[];
    }

    function Storage(): Stores.State
      reads this
    {
      Stores.State(totalSupply, stores, storeStakeholders, balanceOf, storeBalanceOf, captureOverflow, supplyOverflow)
    }

    method Restore(st: Stores.State)
      modifies this
      ensures Storage() == st
    {
      totalSupply, stores, storeStakeholders := st.totalSupply, st.stores, st.storeStakeholders;
      balanceOf, storeBalanceOf := st.balanceOf, st.storeBalanceOf;
      captureOverflow, supplyOverflow := st.captureOverflow, st.supplyOverflow;
    }

    /** Lines 152-158. */
    method Credit(sender: Address, stream: Bytes, amount: Uint256) returns (r: Outcome<()>)
      modifies this
      ensures r.Ok? ==> Stores.Credit(old(Storage()), sender, stream, amount) == Ok(Storage())
      ensures r.Revert? ==> Stores.Credit(old(Storage()), sender, stream, amount) == Revert(r.reason)
    {
      if !Stores.CanCredit(Storage(), sender, stream, amount) {
        return Revert(PANIC_ARITHMETIC);
      }
      stores := stores[stream := Get(stores, stream) + amount];
      balanceOf := balanceOf[sender := Get(balanceOf, sender) + amount];
      if Get(storeBalanceOf, (sender, stream)) == 0 {
        storeStakeholders := storeStakeholders[stream := Stores.Stakeholders(Storage(), stream) + [sender]];
      }
      storeBalanceOf := storeBalanceOf[(sender, stream) := Get(storeBalanceOf, (sender, stream)) + amount];
      totalSupply := totalSupply + amount;
      return Ok(());
    }

    method Stake(sender: Address, streamExists: bool, stream: Bytes, amount: Uint256) returns (r: Outcome<()>)
      modifies this, token
      ensures match Stores.Stake(old(Storage()), old(token.balances), self, sender, streamExists, stream, amount)
              case Ok((st, ledger)) => r == Ok(()) && Storage() == st && token.balances == ledger
              case Revert(why) => r == Revert(why)
    {
      if !streamExists {
        return Revert("error_invalidStream");
      }
      if amount == 0 {
        return Revert("error_insufficientStake");
      }
      var _ :- token.Transfer(sender, self, amount);
      var _ :- Credit(sender, stream, amount);
      return Ok(());
    }

    /** Lines 76-93: more was used than is staked, so everybody's stake in the stream is reset. */
    method CaptureEverything(stream: Bytes, amount: Uint256)
      requires Get(stores, stream) < amount
      modifies this
      ensures Ok(Storage()) == Stores.CaptureStake(old(Storage()), stream, amount)
    {
      var stakeholders := Stores.Stakeholders(Storage(), stream);
      for i := 0 to |stakeholders|
        invariant Stores.ResetAll(Storage(), stakeholders[i..], stream)
             == Stores.ResetAll(old(Storage()), stakeholders, stream)
        invariant stores == old(stores) && captureOverflow == old(captureOverflow)
      {
        var stakeholder := stakeholders[i];
        assert stakeholders[i..][0] == stakeholder && stakeholders[i..][1..] == stakeholders[i + 1..];
        ghost var before := Storage();
        if Get(balanceOf, stakeholder) < Get(storeBalanceOf, (stakeholder, stream)) {
          balanceOf := balanceOf[stakeholder := 0];
        } else {
          var held := Get(storeBalanceOf, (stakeholder, stream));
          balanceOf := balanceOf[stakeholder := Get(balanceOf, stakeholder) - held];
        }
        storeBalanceOf := storeBalanceOf[(stakeholder, stream) := 0];
        assert Storage() == Stores.Reset(before, stakeholder, stream);
      }
      assert stakeholders[|stakeholders|..] == [];
      storeStakeholders := storeStakeholders[stream := []];
      captureOverflow := captureOverflow + (amount - Get(stores, stream));
      stores := stores[stream := 0];
    }

    /** Lines 113-118: rebuild the stakeholder list of the stream, pushing `stakeholder` itself. */
    method Relist(stakeholders: seq<Address>, stakeholder: Address, stream: Bytes)
      modifies this`storeStakeholders
      ensures storeStakeholders == old(storeStakeholders)[stream := Stores.Relisted(stakeholders, stakeholder)]
    {
      var list: seq<Address> := [];
      for j := 0 to |stakeholders|
        invariant list + Stores.Relisted(stakeholders[j..], stakeholder) == Stores.Relisted(stakeholders, stakeholder)
      {
        assert stakeholders[j..][1..] == stakeholders[j + 1..];
        if stakeholders[j] != stakeholder {
          list := list + [stakeholder];
        }
      }
      assert stakeholders[|stakeholders|..] == [];
      assert list == Stores.Relisted(stakeholders, stakeholder);
      storeStakeholders := storeStakeholders[stream := list];
    }

    /** Lines 99-119, for one stakeholder. */
    method DeductFrom(stakeholders: seq<Address>, stakeholder: Address, stream: Bytes,
                      amount: Uint256) returns (r: Outcome<()>)
      modifies this
      ensures match Stores.Deduct(old(Storage()), stakeholders, stakeholder, stream, amount)
              case Ok(st) => r == Ok(()) && Storage() == st
              case Revert(why) => r == Revert(why)
    {
      var k := (stakeholder, stream);
      var stakeOwnership :- Div(Get(storeBalanceOf, k), Get(stores, stream));
      var deduction :- Mul(stakeOwnership, amount);
      if Get(balanceOf, stakeholder) < deduction {
        balanceOf := balanceOf[stakeholder := 0];
      } else {
        balanceOf := balanceOf[stakeholder := Get(balanceOf, stakeholder) - deduction];
      }
      if Get(storeBalanceOf, k) < deduction {
        storeBalanceOf := storeBalanceOf[k := 0];
      } else {
        storeBalanceOf := storeBalanceOf[k := Get(storeBalanceOf, k) - deduction];
      }
      if Get(storeBalanceOf, k) == 0 {
        Relist(stakeholders, stakeholder, stream);
      }
      return Ok(());
    }

    method CaptureShares(stream: Bytes, amount: Uint256) returns (r: Outcome<()>)
      requires Get(stores, stream) >= amount
      modifies this
      ensures match Stores.CaptureStake(old(Storage()), stream, amount)
              case Ok(st) => r == Ok(()) && Storage() == st
              case Revert(why) => r == Revert(why)
    {
      var stakeholders := Stores.Stakeholders(Storage(), stream);
      for i := 0 to |stakeholders|
        invariant Stores.DeductAll(Storage(), stakeholders, stakeholders[i..], stream, amount)
               == Stores.DeductAll(old(Storage()), stakeholders, stakeholders, stream, amount)
      {
        assert stakeholders[i..][0] == stakeholders[i] && stakeholders[i..][1..] == stakeholders[i + 1..];
        var _ :- DeductFrom(stakeholders, stakeholders[i], stream, amount);
      }
      assert stakeholders[|stakeholders|..] == [];
      if Get(stores, stream) < amount {
        return Revert(PANIC_ARITHMETIC);
      }
      stores := stores[stream := Get(stores, stream) - amount];
      return Ok(());
    }

    method Capture(caller: Address, stream: Bytes, amount: Uint256) returns (r: Outcome<()>)
      modifies this, token
      ensures match Stores.Capture(old(Storage()), old(token.balances), self, parent, caller, stream, amount)
              case Ok((st, ledger)) => r == Ok(()) && Storage() == st && token.balances == ledger
              case Revert(why) => r == Revert(why)
    {
      if caller != parent {
        return Revert("error_onlyParent");
      }
      if Get(stores, stream) == 0 {
        return Revert("error_invalidStreamId");
      }
      var amountToTransfer := amount;
      if Get(stores, stream) < amount {
        amountToTransfer := Get(stores, stream);
        CaptureEverything(stream, amount);
      } else {
        var _ :- CaptureShares(stream, amount);
      }
      if totalSupply < amount {
        supplyOverflow := supplyOverflow + (amount - totalSupply);
        totalSupply := 0;
      } else {
        totalSupply := totalSupply - amount;
      }
      if amountToTransfer > Get(token.balances, self) {
        return Revert("error_insufficientStake");
      }
      r := token.Transfer(self, caller, amountToTransfer);
    }
  }

  class LogStoreQueryManager {
    var totalSupply: Uint256
    var balanceOf: map<Address, Uint256>
    var captureOverflow: nat  // sums over the emitted events
    var supplyOverflow: nat

    const token: StakeToken
    const self: Address
    const parent: Address

    constructor (token: StakeToken, self: Address, parent: Address)
      ensures this.token == token && this.self == self && this.parent == parent
      ensures Storage() == Queries.EMPTY
    {
      this.token, this.self, this.parent := token, self, parent;
      totalSupply, captureOverflow, supplyOverflow, balanceOf := 0, 0, 0, map[];
    }

    function Storage(): Queries.State
      reads this
    {
      Queries.State(totalSupply, balanceOf, captureOverflow, supplyOverflow)
    }

    method Restore(st: Queries.State)
      modifies this
      ensures Storage() == st
    {
      totalSupply, balanceOf := st.totalSupply, st.balanceOf;
      captureOverflow, supplyOverflow := st.captureOverflow, st.supplyOverflow;
    }

    method Stake(sender: Address, amount: Uint256) returns (r: Outcome<()>)
      modifies this, token
      ensures match Queries.Stake(old(Storage()), old(token.balances), self, sender, amount)
              case Ok((st, ledger)) => r == Ok(()) && Storage() == st && token.balances == ledger
              case Revert(why) => r == Revert(why)
    {
      if amount == 0 {
        return Revert("error_insufficientStake");
      }
      if Get(balanceOf, sender) + amount > UINT256_MAX || totalSupply + amount > UINT256_MAX {
        return Revert(PANIC_ARITHMETIC);
      }
      balanceOf := balanceOf[sender := Get(balanceOf, sender) + amount];
      totalSupply := totalSupply + amount;
      r := token.Transfer(sender, self, amount);
    }

    method Capture(caller: Address, consumer: Address, amount: Uint256) returns (r: Outcome<()>)
      modifies this, token
      ensures match Queries.Capture(old(Storage()), old(token.balances), self, parent, caller, consumer, amount)
              case Ok((st, ledger)) => r == Ok(()) && Storage() == st && token.balances == ledger
              case Revert(why) => r == Revert(why)
    {
      if caller != parent {
        return Revert("error_onlyParent");
      }
      if Get(balanceOf, consumer) == 0 {
        return Revert("error_invalidConsumerAddress");
      }
      var amountToTransfer := amount;
      if Get(balanceOf, consumer) < amount {
        captureOverflow := captureOverflow + (amount - Get(balanceOf, consumer));
        amountToTransfer := Get(balanceOf, consumer);
        balanceOf := balanceOf[consumer := 0];
      } else {
        balanceOf := balanceOf[consumer := Get(balanceOf, consumer) - amount];
      }
      if totalSupply < amount {
        supplyOverflow := supplyOverflow + (amount - totalSupply);
        totalSupply := 0;
      } else {
        totalSupply := totalSupply - amount;
      }
      if amountToTransfer > Get(token.balances, self) {
        return Revert("error_insufficientStake");
      }
      r := token.Transfer(self, caller, amountToTransfer);
    }
  }

  class LogStoreNodeManager {
    var requiresWhitelist: bool
    var stakeRequiredAmount: Uint256
    var totalSupply: Uint256
    var treasurySupply: Uint256
    var totalNodes: Uint256
    var startBlockNumber: Uint256
    var nodes: Nodes
    var headNode: Address
    var tailNode: Address
    var whitelist: map<Address, NodeManager.Whitelisting>
    var balanceOf: map<Address, Uint256>
    var delegatesOf: map<(Address, Address), Uint256>
    var permitted: set<Address>  // kept by the stream registry

    const token: StakeToken
    const self: Address

    constructor (token: StakeToken, self: Address, requiresWhitelist: bool, stakeRequiredAmount: Uint256)
      ensures this.token == token && this.self == self
      ensures Storage() == NodeManager.State(requiresWhitelist, stakeRequiredAmount, 0, 0, Registry.EMPTY,
                                             map[], map[], map[], {})
    {
      this.token, this.self := token, self;
      this.requiresWhitelist, this.stakeRequiredAmount := requiresWhitelist, stakeRequiredAmount;
      totalSupply, treasurySupply, totalNodes, startBlockNumber := 0, 0, 0, 0;
      nodes, headNode, tailNode := map[], NO_ADDRESS, NO_ADDRESS;
      whitelist, balanceOf, delegatesOf, permitted := map[], map[], map[], {};
    }

    function NodeList(): List
      reads this
    {
      List(nodes, headNode, tailNode, totalNodes, startBlockNumber)
    }

    function Storage(): NodeManager.State
      reads this
    {
      NodeManager.State(requiresWhitelist, stakeRequiredAmount, totalSupply, treasurySupply, NodeList(), whitelist,
                        balanceOf, delegatesOf, permitted)
    }

    function Funds(): NodeManager.Funds
      reads this, token
    {
      NodeManager.Funds(Storage(), token.balances)
    }

    method Restore(st: NodeManager.State)
      modifies this
      ensures Storage() == st
    {
      requiresWhitelist, stakeRequiredAmount := st.requiresWhitelist, st.stakeRequiredAmount;
      totalSupply, treasurySupply := st.totalSupply, st.treasurySupply;
      totalNodes, startBlockNumber := st.list.totalNodes, st.list.startBlockNumber;
      nodes, headNode, tailNode := st.list.nodes, st.list.headNode, st.list.tailNode;
      whitelist, balanceOf, delegatesOf, permitted := st.whitelist, st.balanceOf, st.delegatesOf, st.permitted;
    }

    /** `_upsertNode` */
    method UpsertNode(block: Block, a: Address, metadata: Bytes) returns (r: Outcome<()>)
      modifies this
      ensures r.Ok? ==> NodeManager.UpsertNode(old(Storage()), block, a, metadata) == Ok(Storage())
      ensures r.Revert? ==> NodeManager.UpsertNode(old(Storage()), block, a, metadata) == Revert(r.reason)
    {
      if At(nodes, a).lastSeen == 0 {
        if totalNodes + 1 > UINT256_MAX {
          return Revert(PANIC_ARITHMETIC);
        }
        if headNode == NO_ADDRESS {
          headNode := a;
          startBlockNumber := block.number;
        } else {
          nodes := nodes[tailNode := At(nodes, tailNode).(next := a)];
          nodes := nodes[a := At(nodes, a).(prev := tailNode, index := totalNodes)];
        }
        tailNode := a;
        totalNodes := totalNodes + 1;
      }
      nodes := nodes[a := At(nodes, a).(metadata := metadata, lastSeen := block.timestamp)];
      return Ok(());
    }

    /** Lines 340-345: make the neighbours of `a` point past it. */
    method Bypass(a: Address)
      modifies this`nodes
      ensures nodes == Bypassed(old(nodes), a)
    {
      var prev := At(nodes, a).prev;
      if prev != NO_ADDRESS {
        nodes := nodes[prev := At(nodes, prev).(next := At(nodes, a).next)];
      }
      var next := At(nodes, a).next;
      if next != NO_ADDRESS {
        nodes := nodes[next := At(nodes, next).(prev := At(nodes, a).prev)];
      }
    }

    /** Lines 340-354: point past `a`, move the ends of the list off it and delete it. */
    method Unlink(a: Address)
      modifies this`nodes, this`headNode, this`tailNode
      ensures nodes == Unlinked(old(nodes), a)
      ensures headNode == if old(headNode) == a then At(Bypassed(old(nodes), a), a).next else old(headNode)
      ensures tailNode == if old(tailNode) == a then At(Bypassed(old(nodes), a), a).prev else old(tailNode)
    {
      Bypass(a);
      if headNode == a {
        headNode := At(nodes, a).next;
      }
      if tailNode == a {
        tailNode := At(nodes, a).prev;
      }
      nodes := nodes[a := UNSET];
    }

    /** Lines 360-364: count down the indices along `next`, `rest` being the nodes that lie there. */
    method Reindex(start: Address, ghost rest: seq<Address>) returns (r: Outcome<()>)
      requires Follows(nodes, start, rest)
      modifies this`nodes
      ensures r.Ok? ==> Reindexed(old(nodes), rest) == Ok(nodes)
      ensures r.Revert? ==> Reindexed(old(nodes), rest) == Revert(r.reason)
    {
      var nextNode := start;
      ghost var left := rest;
      while nextNode != NO_ADDRESS
        invariant Follows(nodes, nextNode, left)
        invariant Reindexed(nodes, left) == Reindexed(old(nodes), rest)
        decreases |left|
      {
        var counted :- CountDown(nodes, nextNode);
        StillFollows(nodes, counted, At(nodes, nextNode).next, left[1..]);
        nodes := counted;
        nextNode := At(nodes, nextNode).next;
        left := left[1..];
      }
      return Ok(());
    }

    /** `_removeNode`. The loop is entered with the successor read after the deletion, so it visits no node. */
    method RemoveNode(a: Address) returns (r: Outcome<()>)
      modifies this
      ensures r.Ok? ==> NodeManager.RemoveNode(old(Storage()), a) == Ok(Storage())
      ensures r.Revert? ==> NodeManager.RemoveNode(old(Storage()), a) == Revert(r.reason)
    {
      if At(nodes, a).lastSeen == 0 {
        return Revert("error_notFound");
      }
      Unlink(a);
      if totalNodes == 0 {
        return Revert(PANIC_ARITHMETIC);
      }
      totalNodes := totalNodes - 1;
      r := Reindex(At(nodes, a).next, []);
      if headNode == NO_ADDRESS {
        startBlockNumber := 0;
      }
    }

    /** `nodeAddresses`: fill an array of `totalNodes` slots by following `next` from the head. */
    method NodeAddresses() returns (r: Outcome<array<Address>>)
      ensures r.Ok? ==> fresh(r.value) && Registry.NodeAddresses(NodeList()) == Ok(r.value[..])
      ensures r.Revert? ==> Registry.NodeAddresses(NodeList()) == Revert(r.reason)
    {
      var addresses := new Address[totalNodes](_ => NO_ADDRESS);
      var cursor, index := headNode, 0;
      PrependNone(Walk(nodes, headNode, totalNodes));
      assert addresses[..0] == [];
      while cursor != NO_ADDRESS
        invariant 0 <= index <= totalNodes
        invariant forall i :: index <= i < totalNodes ==> addresses[i] == NO_ADDRESS
        invariant Walk(nodes, headNode, totalNodes)
             == Prepend(addresses[..index], Walk(nodes, cursor, totalNodes - index))
        decreases totalNodes - index
      {
        if index == totalNodes {
          return Revert(PANIC_INDEX);
        }
        ghost var before := addresses[..index];
        addresses[index] := cursor;
        assert addresses[..index + 1] == before + [cursor];
        PrependOne(before, cursor, Walk(nodes, At(nodes, cursor).next, totalNodes - index - 1));
        cursor := At(nodes, cursor).next;
        index := index + 1;
      }
      assert addresses[..] == addresses[..index] + Zeros(totalNodes - index);
      return Ok(addresses);
    }

    method CheckAndGrantAccess(node: Address)
      modifies this`permitted
      ensures Storage() == NodeManager.CheckAndGrantAccess(old(Storage()), node)
    {
      if At(nodes, node).stake >= stakeRequiredAmount {
        permitted := permitted + {node};
      } else {
        permitted := permitted - {node};
      }
    }

    method Stake(sender: Address, amount: Uint256) returns (r: Outcome<()>)
      modifies this, token
      ensures r.Ok? ==> NodeManager.Stake(old(Funds()), self, sender, amount) == Ok(Funds())
      ensures r.Revert? ==> NodeManager.Stake(old(Funds()), self, sender, amount) == Revert(r.reason)
    {
      if amount == 0 {
        return Revert("error_insufficientStake");
      }
      if Get(token.balances, sender) < amount {
        return Revert("error_insufficientBalance");
      }
      var balance := Get(balanceOf, sender) + amount;
      if balance > UINT256_MAX || totalSupply + amount > UINT256_MAX {
        return Revert(PANIC_ARITHMETIC);
      }
      balanceOf := balanceOf[sender := balance];
      totalSupply := totalSupply + amount;
      var _ :- token.Transfer(sender, self, amount);
      return Ok(());
    }

    method SetStake(node: Address, stake: Uint256)
      modifies this
      ensures Storage() == NodeManager.SetStake(old(Storage()), node, stake)
    {
      nodes := nodes[node := At(nodes, node).(stake := stake)];
      CheckAndGrantAccess(node);
    }

    method Delegate(sender: Address, amount: Uint256, node: Address) returns (r: Outcome<()>)
      modifies this
      ensures r.Ok? ==> NodeManager.Delegate(old(Storage()), sender, amount, node) == Ok(Storage())
      ensures r.Revert? ==> NodeManager.Delegate(old(Storage()), sender, amount, node) == Revert(r.reason)
    {
      if amount == 0 {
        return Revert("error_insufficientDelegateAmount");
      }
      if At(nodes, node).lastSeen == 0 {
        return Revert("error_invalidNode");
      }
      var balance :- Sub(Get(balanceOf, sender), amount);
      balanceOf := balanceOf[sender := balance];
      var delegated :- Add(Get(delegatesOf, (sender, node)), amount);
      delegatesOf := delegatesOf[(sender, node) := delegated];
      var stake :- Add(At(nodes, node).stake, amount);
      SetStake(node, stake);
      return Ok(());
    }

    method Undelegate(sender: Address, amount: Uint256, node: Address) returns (r: Outcome<()>)
      modifies this
      ensures r.Ok? ==> NodeManager.Undelegate(old(Storage()), sender, amount, node) == Ok(Storage())
      ensures r.Revert? ==> NodeManager.Undelegate(old(Storage()), sender, amount, node) == Revert(r.reason)
    {
      if amount == 0 {
        return Revert("error_insufficientDelegateAmount");
      }
      if At(nodes, node).lastSeen == 0 {
        return Revert("error_invalidNode");
      }
      var delegated :- Sub(Get(delegatesOf, (sender, node)), amount);
      delegatesOf := delegatesOf[(sender, node) := delegated];
      var stake :- Sub(At(nodes, node).stake, amount);
      var balance :- Add(Get(balanceOf, sender), amount);
      balanceOf := balanceOf[sender := balance];
      SetStake(node, stake);
      return Ok(());
    }

    method Withdraw(sender: Address, amount: Uint256) returns (r: Outcome<()>)
      modifies this, token
      ensures r.Ok? ==> NodeManager.Withdraw(old(Funds()), self, sender, amount) == Ok(Funds())
      ensures r.Revert? ==> NodeManager.Withdraw(old(Funds()), self, sender, amount) == Revert(r.reason)
    {
      if amount > Get(balanceOf, sender) {
        return Revert("error_notEnoughStake");
      }
      balanceOf := balanceOf[sender := Get(balanceOf, sender) - amount];
      var supply :- Sub(totalSupply, amount);
      totalSupply := supply;
      var _ :- token.Transfer(self, sender, amount);
      return Ok(());
    }

    method TreasuryWithdraw(owner: Address, amount: Uint256) returns (r: Outcome<()>)
      modifies this, token
      ensures r.Ok? ==> NodeManager.TreasuryWithdraw(old(Funds()), self, owner, amount) == Ok(Funds())
      ensures r.Revert? ==> NodeManager.TreasuryWithdraw(old(Funds()), self, owner, amount) == Revert(r.reason)
    {
      if amount > treasurySupply {
        return Revert("error_notEnoughStake");
      }
      var supply :- Sub(totalSupply, amount);
      totalSupply := supply;
      treasurySupply := treasurySupply - amount;
      var _ :- token.Transfer(self, owner, amount);
      return Ok(());
    }

    method UpsertOwn(block: Block, sender: Address, metadata: Bytes) returns (r: Outcome<()>)
      modifies this
      ensures r.Ok? ==> NodeManager.UpsertOwn(old(Storage()), block, sender, metadata) == Ok(Storage())
      ensures r.Revert? ==> NodeManager.UpsertOwn(old(Storage()), block, sender, metadata) == Revert(r.reason)
    {
      if requiresWhitelist && NodeManager.Whitelisted(Storage(), sender) != NodeManager.Approved {
        return Revert("error_notApproved");
      }
      r := UpsertNode(block, sender, metadata);
    }

    method StakeAndDelegate(sender: Address, amount: Uint256, node: Address) returns (r: Outcome<()>)
      modifies this, token
      ensures r.Ok? ==> NodeManager.StakeAndDelegate(old(Funds()), self, sender, amount, node) == Ok(Funds())
      ensures r.Revert? ==> NodeManager.StakeAndDelegate(old(Funds()), self, sender, amount, node) == Revert(r.reason)
    {
      var _ :- Stake(sender, amount);
      r := Delegate(sender, amount, node);
    }

    method UndelegateWithdraw(sender: Address, amount: Uint256, node: Address) returns (r: Outcome<()>)
      modifies this, token
      ensures r.Ok? ==> NodeManager.UndelegateWithdraw(old(Funds()), self, sender, amount, node) == Ok(Funds())
      ensures r.Revert? ==> NodeManager.UndelegateWithdraw(old(Funds()), self, sender, amount, node) == Revert(r.reason)
    {
      var _ :- Undelegate(sender, amount, node);
      r := Withdraw(sender, amount);
    }

    method Join(block: Block, sender: Address, amount: Uint256, metadata: Bytes) returns (r: Outcome<()>)
      modifies this, token
      ensures r.Ok? ==> NodeManager.Join(old(Funds()), self, block, sender, amount, metadata) == Ok(Funds())
      ensures r.Revert? ==> NodeManager.Join(old(Funds()), self, block, sender, amount, metadata) == Revert(r.reason)
    {
      var _ :- UpsertOwn(block, sender, metadata);
      r := StakeAndDelegate(sender, amount, sender);
    }

    method Leave(sender: Address) returns (r: Outcome<()>)
      modifies this, token
      ensures r.Ok? ==> NodeManager.Leave(old(Funds()), self, sender) == Ok(Funds())
      ensures r.Revert? ==> NodeManager.Leave(old(Funds()), self, sender) == Revert(r.reason)
    {
      var _ :- Undelegate(sender, Get(delegatesOf, (sender, sender)), sender);
      var _ :- Withdraw(sender, Get(balanceOf, sender));
      r := RemoveNode(sender);
    }

    // The last part of `processReport`, lines 196-227.

    method ApplyNodeChanges(entries: seq<NodeEntry>) returns (r: Outcome<()>)
      modifies this
      ensures r.Ok? ==> Settlement.AdjustNodes(old(Storage()), entries) == Ok(Storage())
      ensures r.Revert? ==> Settlement.AdjustNodes(old(Storage()), entries) == Revert(r.reason)
    {
      for i := 0 to |entries|
        invariant Settlement.AdjustNodes(Storage(), entries[i..]) == Settlement.AdjustNodes(old(Storage()), entries)
      {
        assert entries[i..][0] == entries[i] && entries[i..][1..] == entries[i + 1..];
        var newNodeAmount :- AddSigned(AsInt256(At(nodes, entries[i].id).stake), entries[i].amount);
        SetStake(entries[i].id, if newNodeAmount > 0 then newNodeAmount else 0);
      }
      return Ok(());
    }

    method ApplyDelegateNodes(delegate: Address, entries: seq<NodeEntry>) returns (r: Outcome<()>)
      modifies this`delegatesOf
      ensures r.Ok? ==> Settlement.AdjustDelegate(old(delegatesOf), delegate, entries) == Ok(delegatesOf)
      ensures r.Revert? ==> Settlement.AdjustDelegate(old(delegatesOf), delegate, entries) == Revert(r.reason)
    {
      for j := 0 to |entries|
        invariant Settlement.AdjustDelegate(delegatesOf, delegate, entries[j..])
               == Settlement.AdjustDelegate(old(delegatesOf), delegate, entries)
      {
        assert entries[j..][0] == entries[j] && entries[j..][1..] == entries[j + 1..];
        var k := (delegate, entries[j].id);
        var newDelegateAmount :- AddSigned(AsInt256(Get(delegatesOf, k)), entries[j].amount);
        delegatesOf := delegatesOf[k := if newDelegateAmount > 0 then newDelegateAmount else 0];
      }
      return Ok(());
    }

    method ApplyDelegateChanges(entries: seq<DelegateEntry>) returns (r: Outcome<()>)
      modifies this`delegatesOf
      ensures r.Ok? ==> Settlement.AdjustDelegates(old(delegatesOf), entries) == Ok(delegatesOf)
      ensures r.Revert? ==> Settlement.AdjustDelegates(old(delegatesOf), entries) == Revert(r.reason)
    {
      for i := 0 to |entries|
        invariant Settlement.AdjustDelegates(delegatesOf, entries[i..])
             == Settlement.AdjustDelegates(old(delegatesOf), entries)
      {
        assert entries[i..][0] == entries[i] && entries[i..][1..] == entries[i + 1..];
        var _ :- ApplyDelegateNodes(entries[i].id, entries[i].nodes);
      }
      return Ok(());
    }

    method ApplyChanges(report: Report) returns (r: Outcome<()>)
      modifies this
      ensures r.Ok? ==> Settlement.ApplyChanges(old(Storage()), report) == Ok(Storage())
      ensures r.Revert? ==> Settlement.ApplyChanges(old(Storage()), report) == Revert(r.reason)
    {
      var _ :- ApplyNodeChanges(report.content.nodes);
      var _ :- ApplyDelegateChanges(report.content.delegates);
      var newTreasurySupply :- AddSigned(AsInt256(treasurySupply), report.treasury);
      treasurySupply := if newTreasurySupply > 0 then newTreasurySupply else 0;
      return Ok(());
    }

    // `processReport` itself, with the registered managers.

    function World(stores: LogStoreManager, queries: LogStoreQueryManager,
                   reports: LogStoreReportManager): Settlement.World
      reads this, token, stores, queries, reports
    {
      Settlement.World(token.balances, Storage(), stores.Storage(), queries.Storage(), reports.Storage())
    }

    /** The managers share the token and answer to this contract; `c` names everybody's address. */
    predicate Wired(c: Settlement.Contracts, stores: LogStoreManager, queries: LogStoreQueryManager) {
      && stores.token == token && stores.parent == self && c.storeManager == stores.self
      && queries.token == token && queries.parent == self && c.queryManager == queries.self
      && c.nodeManager == self
    }

    method CaptureStreamFees(entries: seq<StreamEntry>, ghost c: Settlement.Contracts, stores: LogStoreManager,
                             ghost queries: LogStoreQueryManager, ghost reports: LogStoreReportManager)
      returns (r: Outcome<()>)
      requires Wired(c, stores, queries)
      modifies this, token, stores
      ensures r.Ok? ==>
                Settlement.CaptureStreams(old(World(stores, queries, reports)), c, entries)
                == Ok(World(stores, queries, reports))
      ensures r.Revert? ==>
                Settlement.CaptureStreams(old(World(stores, queries, reports)), c, entries) == Revert(r.reason)
    {
      for i := 0 to |entries|
        invariant Settlement.CaptureStreams(World(stores, queries, reports), c, entries[i..])
               == Settlement.CaptureStreams(old(World(stores, queries, reports)), c, entries)
      {
        assert entries[i..][0] == entries[i] && entries[i..][1..] == entries[i + 1..];
        if entries[i].writeBytes > 0 {
          var _ :- stores.Capture(self, entries[i].id, entries[i].writeCapture);
          var supply :- Add(totalSupply, entries[i].writeCapture);
          totalSupply := supply;
        }
      }
      return Ok(());
    }

    method CaptureConsumerFees(entries: seq<ConsumerEntry>, ghost c: Settlement.Contracts,
                               ghost stores: LogStoreManager,
                               queries: LogStoreQueryManager, ghost reports: LogStoreReportManager)
      returns (r: Outcome<()>)
      requires Wired(c, stores, queries)
      modifies this, token, queries
      ensures r.Ok? ==>
                Settlement.CaptureConsumers(old(World(stores, queries, reports)), c, entries)
                == Ok(World(stores, queries, reports))
      ensures r.Revert? ==>
                Settlement.CaptureConsumers(old(World(stores, queries, reports)), c, entries) == Revert(r.reason)
    {
      for i := 0 to |entries|
        invariant Settlement.CaptureConsumers(World(stores, queries, reports), c, entries[i..])
               == Settlement.CaptureConsumers(old(World(stores, queries, reports)), c, entries)
      {
        assert entries[i..][0] == entries[i] && entries[i..][1..] == entries[i + 1..];
        if entries[i].readBytes > 0 {
          var _ :- queries.Capture(self, entries[i].id, entries[i].readCapture);
          var supply :- Add(totalSupply, entries[i].readCapture);
          totalSupply := supply;
        }
      }
      return Ok(());
    }

    method ProcessReport(sender: Address, id: Bytes, ghost c: Settlement.Contracts, stores: LogStoreManager,
                         queries: LogStoreQueryManager, reports: LogStoreReportManager)
      returns (r: Outcome<()>)
      requires Wired(c, stores, queries)
      modifies this, token, stores, queries, reports
      ensures r.Ok? ==>
                Settlement.ProcessReport(old(World(stores, queries, reports)), c, sender, id)
                == Ok(World(stores, queries, reports))
      ensures r.Revert? ==>
                Settlement.ProcessReport(old(World(stores, queries, reports)), c, sender, id) == Revert(r.reason)
    {
      if !NodeManager.IsStaked(Storage(), sender) {
        return Revert("error_stakeRequired");
      }
      var report := ReportManager.ReportAt(reports.Storage(), id);
      if report.processed {
        return Revert("error_reportAlreadyProcessed");
      }
      var _ :- CaptureStreamFees(report.content.streams, c, stores, queries, reports);
      var _ :- CaptureConsumerFees(report.content.consumers, c, stores, queries, reports);
      var _ :- ApplyChanges(report);
      reports.MarkProcessed(id);
      return Ok(());
    }
  }

  class LogStoreReportManager {
    var reportTimeBuffer: Uint256
    var testTimestamp: Uint256
    var reputationOf: Ranking.Reputations
    var lastReportId: Bytes
    var reports: map<Bytes, Report>
    var reportProofs: map<Bytes, seq<Proof>>

    const nodeManager: LogStoreNodeManager
    const recover: Consensus.Recover

    constructor (nodeManager: LogStoreNodeManager, recover: Consensus.Recover, reportTimeBuffer: Uint256,
                 testTimestamp: Uint256)
      ensures this.nodeManager == nodeManager && this.recover == recover
      ensures Storage() == ReportManager.State(reportTimeBuffer, testTimestamp, map[], [], map[], map[])
    {
      this.nodeManager, this.recover := nodeManager, recover;
      this.reportTimeBuffer, this.testTimestamp := reportTimeBuffer, testTimestamp;
      reputationOf, lastReportId, reports, reportProofs := map[], [], map[], map[];
    }

    function Storage(): ReportManager.State
      reads this
    {
      ReportManager.State(reportTimeBuffer, testTimestamp, reputationOf, lastReportId, reports, reportProofs)
    }

    method Restore(st: ReportManager.State)
      modifies this
      ensures Storage() == st
    {
      reportTimeBuffer, testTimestamp, reputationOf := st.reportTimeBuffer, st.testTimestamp, st.reputationOf;
      lastReportId, reports, reportProofs := st.lastReportId, st.reports, st.reportProofs;
    }

    /** What `getReporters` returns when the node manager answers `members`. */
    function Reporters(members: Outcome<seq<Address>>): Outcome<seq<Address>>
      reads this
    {
      var nodes :- members;
      Ranking.GetReporters(nodes, reputationOf)
    }

    method GetReporters() returns (r: Outcome<seq<Address>>)
      ensures r == Reporters(Registry.NodeAddresses(nodeManager.NodeList()))
    {
      var reporters :- nodeManager.NodeAddresses();
      if reporters.Length == 0 {
        return Revert(PANIC_ARITHMETIC);
      }
      Ranking.BubbleSort(reporters, reputationOf);
      return Ok(reporters[..]);
    }

    /** Lines 165-178. */
    method Admit(block: Block, sender: Address, p: Arguments) returns (r: Outcome<seq<Address>>)
      ensures r == ReportManager.Admit(Storage(), Registry.NodeAddresses(nodeManager.NodeList()),
                                       NodeManager.IsStaked(nodeManager.Storage(), sender), block, sender, p)
    {
      if !NodeManager.IsStaked(nodeManager.Storage(), sender) {
        return Revert("error_stakeRequired");
      }
      if ReportManager.ReportAt(Storage(), p.id).processed {
        return Revert("error_reportAlreadyProcessed");
      }
      if !(p.blockHeight <= block.number && p.blockHeight > ReportManager.LastHeight(Storage())) {
        return Revert("error_invalidReport");
      }
      if |p.addresses| * 3 != |p.addresses| + |p.proofTimestamps| + |p.signatures| {
        return Revert("error_invalidProofs");
      }
      var reporters :- GetReporters();
      var quorum :- Consensus.CheckQuorum(p.addresses, reporters);
      if !quorum {
        return Revert("error_quorumNotMet");
      }
      var eligible :- Schedule.MayReport(sender, reporters, p.proofTimestamps, reportTimeBuffer, testTimestamp, block);
      if !eligible {
        return Revert("error_invalidReporter");
      }
      return Ok(reporters);
    }

    /** The tally of the loop over the reporters, as the storage holds it. */
    function Tally(id: Bytes, led: bool): Consensus.Tally
      reads this
    {
      Consensus.Tally(reputationOf, ReportManager.ProofsAt(Storage(), id), led)
    }

    /** Lines 261-276: store a verified proof and adjust its signer's reputation. */
    method Reward(id: Bytes, sender: Address, proof: Proof, led: bool) returns (r: Outcome<bool>)
      modifies this`reputationOf, this`reportProofs
      ensures r.Ok? ==> Consensus.Reward(old(Tally(id, led)), sender, proof) == Ok(Tally(id, r.value))
      ensures r.Ok? ==> reportProofs == old(reportProofs)[id := Tally(id, r.value).proofs]
      ensures r.Ok? ==> |Tally(id, r.value).proofs| == old(|Tally(id, led).proofs|) + 1
      ensures r.Revert? ==> Consensus.Reward(old(Tally(id, led)), sender, proof) == Revert(r.reason)
    {
      reportProofs := reportProofs[id := ReportManager.ProofsAt(Storage(), id) + [proof]];
      if sender == proof.signer {
        var reputation :- Add(Get(reputationOf, sender), 10);
        reputationOf := reputationOf[sender := reputation];
        return Ok(true);
      } else if !led {
        var reputation := Get(reputationOf, proof.signer);
        reputationOf := reputationOf[proof.signer := reputation - if reputation >= 5 then 5 else reputation];
        return Ok(led);
      } else {
        var reputation :- Add(Get(reputationOf, proof.signer), 1);
        reputationOf := reputationOf[proof.signer := reputation];
        return Ok(led);
      }
    }

    /** One turn of the loop, lines 241-280. The result is the new `led` and `consensusCount`. */
    method CountAt(reporters: seq<Address>, i: nat, p: Arguments, pack: Bytes, sender: Address, led: bool,
                   count: Uint256)
      returns (r: Outcome<(bool, Uint256)>)
      requires i < |reporters| && count + Schedule.MATH_PRECISION <= UINT256_MAX
      requires count == |Tally(p.id, led).proofs| * Schedule.MATH_PRECISION
      requires p.id in reportProofs
      modifies this`reputationOf, this`reportProofs
      ensures r.Ok? ==>
                Consensus.CountOne(reporters, i, p, pack, sender, recover, old(Tally(p.id, led)))
                == Ok(Tally(p.id, r.value.0))
      ensures r.Ok? ==> reportProofs == old(reportProofs)[p.id := Tally(p.id, r.value.0).proofs]
      ensures r.Ok? ==>
                && r.value.1 == |Tally(p.id, r.value.0).proofs| * Schedule.MATH_PRECISION
                && r.value.1 <= count + Schedule.MATH_PRECISION
      ensures r.Revert? ==>
                Consensus.CountOne(reporters, i, p, pack, sender, recover, old(Tally(p.id, led))) == Revert(r.reason)
    {
      var proof :- Consensus.FindProof(reporters[i], p);
      if Consensus.Verified(proof, p, pack, recover) {
        var led' :- Reward(p.id, sender, proof, led);
        return Ok((led', count + 1 * Schedule.MATH_PRECISION));
      }
      if i >= |p.addresses| {
        return Revert(PANIC_INDEX);
      }
      reputationOf := reputationOf[p.addresses[i] := 0];
      return Ok((led, count));
    }

    /** Lines 235-281: look up, verify and count one proof for each reporter in rank order. */
    method CountProofs(reporters: seq<Address>, p: Arguments, pack: Bytes, sender: Address)
      returns (r: Outcome<Uint256>)
      requires |reporters| * Schedule.MATH_PRECISION <= UINT256_MAX
      modifies this`reputationOf, this`reportProofs
      ensures match Consensus.CountProofs(reporters, 0, p, pack, sender, recover,
                                          Consensus.Tally(old(reputationOf), [], false))
              case Ok(tally) =>
                && r == Ok(|tally.proofs| * Schedule.MATH_PRECISION)
                && reputationOf == tally.rep && reportProofs == old(reportProofs)[p.id := tally.proofs]
              case Revert(why) => r == Revert(why)
    {
      reportProofs := reportProofs[p.id := []];
      var led := false;
      var consensusCount: Uint256 := 0;
      ghost var start := Consensus.Tally(reputationOf, [], false);
      for i := 0 to |reporters|
        invariant p.id in reportProofs && reportProofs == old(reportProofs)[p.id := reportProofs[p.id]]
        invariant Consensus.CountProofs(reporters, i, p, pack, sender, recover, Tally(p.id, led))
               == Consensus.CountProofs(reporters, 0, p, pack, sender, recover, start)
        invariant consensusCount == |Tally(p.id, led).proofs| * Schedule.MATH_PRECISION
        invariant consensusCount <= i * Schedule.MATH_PRECISION
      {
        var counted :- CountAt(reporters, i, p, pack, sender, led, consensusCount);
        led, consensusCount := counted.0, counted.1;
      }
      return Ok(consensusCount);
    }

    /** What `report` comes to, as things stand here and in the node manager. */
    function Submitted(block: Block, sender: Address, p: Arguments): Outcome<ReportManager.State>
      reads this, nodeManager
    {
      ReportManager.Submit(Storage(), Registry.NodeAddresses(nodeManager.NodeList()),
                           NodeManager.IsStaked(nodeManager.Storage(), sender), block, sender, p, recover)
    }

    method SubmitReport(block: Block, sender: Address, p: Arguments) returns (r: Outcome<()>)
      modifies this
      ensures r.Ok? ==> old(Submitted(block, sender, p)) == Ok(Storage())
      ensures r.Revert? ==> old(Submitted(block, sender, p)) == Revert(r.reason)
    {
      var reporters :- Admit(block, sender, p);
      var rebuilt :- Rebuild(p);
      var (content, pack) := rebuilt;
      ReportManager.AdmittedSize(Storage(), Registry.NodeAddresses(nodeManager.NodeList()),
                                 NodeManager.IsStaked(nodeManager.Storage(), sender), block, sender, p);
      var consensusCount :- CountProofs(reporters, p, pack, sender);
      if consensusCount < |reporters| * Schedule.MATH_PRECISION / 2 {
        return Revert("error_consensusNotMet");
      }
      reports := reports[p.id := Report(p.id, p.blockHeight, p.treasurySupplyChange, content, sender, false)];
      lastReportId := p.id;
      return Ok(());
    }

    method MarkProcessed(id: Bytes)
      modifies this`reports
      ensures Storage() == ReportManager.MarkProcessed(old(Storage()), id)
    {
      reports := reports[id := ReportManager.ReportAt(Storage(), id).(processed := true)];
    }
  }
}
