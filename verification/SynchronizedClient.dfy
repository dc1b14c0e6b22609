/** The client's fields and the pieces of code that run between two awaits, each one step of `Indexing`. */
module SynchronizedClient {
  import opened Indexing

  class IndexingState {
    var blockNumber: int
    var gates: set<GateId>
    var requiredBlockNumber: int
    var all: seq<Gate>
    var waiters: seq<Waiter>
    var pollers: seq<Poller>

    function Current(): State
      reads this
    {
      State(blockNumber, gates, pollers, requiredBlockNumber, all, waiters)
    }

    constructor ()
      ensures Current() == START
    {
      blockNumber, gates, requiredBlockNumber := 0, {}, 0;
      all, waiters, pollers := [], [], [];
    }

    method UpdateRequiredBlockNumber(block: int)
      modifies this
      ensures Current() == Next(old(Current()), Update(block))
    {
      requiredBlockNumber := if block > requiredBlockNumber then block else requiredBlockNumber;
    }

    /** `sendQuery` up to the first await: create a gate, and start a polling loop if there is none. */
    method WaitUntilIndexed() returns (gate: GateId)
      modifies this
      ensures Current() == Next(old(Current()), SendQuery)
      ensures gate == |old(all)| && all[gate].blockNumber == requiredBlockNumber
    {
      gate := |all|;
      var block := requiredBlockNumber;
      if block > blockNumber {
        var isPolling := gates != {};
        all, waiters := all + [Gate(block, false)], waiters + [Waiting];
        gates := gates + {gate};
        if !isPolling {
          pollers := pollers + [Polling];
        }
      } else {
        all, waiters := all + [Gate(block, true)], waiters + [Waiting];
      }
    }

    /** The body of the polling loop after the poll resolved. */
    method PollReturned(poller: nat, newBlockNumber: int)
      requires Consistent(Current()) && Enabled(Current(), PollReturns(poller, newBlockNumber))
      modifies this
      ensures Current() == Next(old(Current()), PollReturns(poller, newBlockNumber))
    {
      if newBlockNumber != blockNumber {
        blockNumber := newBlockNumber;
        var todo := gates;
        while todo != {}
          invariant todo <= gates <= old(gates)
          invariant |all| == |old(all)|
          invariant forall g :: 0 <= g < |all| ==>
                      all[g] == if g in old(gates) && g !in todo && old(all)[g].blockNumber <= blockNumber
                                then old(all)[g].(open := true) else old(all)[g]
          invariant forall g :: g in old(gates) && g !in todo ==>
                      (g in gates <==> old(all)[g].blockNumber > blockNumber)
          invariant blockNumber == newBlockNumber && pollers == old(pollers) && waiters == old(waiters)
                    && requiredBlockNumber == old(requiredBlockNumber)
        {
          var g :| g in todo;
          todo := todo - {g};
          if all[g].blockNumber <= blockNumber {
            all := all[g := all[g].(open := true)];
            gates := gates - {g};
          }
        }
        assert all == Opened(old(all), old(gates), newBlockNumber);
        assert gates == Remaining(old(all), old(gates), newBlockNumber);
      }
      pollers := if gates != {} then pollers[poller := Sleeping] else Without(pollers, poller);
    }

    method PollFailed(poller: nat)
      requires Enabled(Current(), PollFails(poller))
      modifies this
      ensures Current() == Next(old(Current()), PollFails(poller))
    {
      pollers := Without(pollers, poller);
    }

    method Woke(poller: nat)
      requires Enabled(Current(), Wakes(poller))
      modifies this
      ensures Current() == Next(old(Current()), Wakes(poller))
    {
      pollers := if gates != {} then pollers[poller := Polling] else Without(pollers, poller);
    }

    method Resumed(gate: GateId)
      requires Enabled(Current(), Resumes(gate))
      modifies this
      ensures Current() == Next(old(Current()), Resumes(gate))
    {
      waiters := waiters[gate := Sent];
    }

    method TimedOutAt(gate: GateId)
      requires Enabled(Current(), TimesOut(gate))
      modifies this
      ensures Current() == Next(old(Current()), TimesOut(gate))
    {
      waiters := waiters[gate := TimedOut];
      gates := gates - {gate};
    }

    /** One event of the JavaScript run loop. */
    method Handle(e: Event)
      requires Consistent(Current()) && Enabled(Current(), e)
      modifies this
      ensures Current() == Next(old(Current()), e) && Consistent(Current())
    {
      StepConsistent(Current(), e);
      match e
      case Update(block) => UpdateRequiredBlockNumber(block);
      case SendQuery => var _ := WaitUntilIndexed();
      case PollReturns(poller, block) => PollReturned(poller, block);
      case PollFails(poller) => PollFailed(poller);
      case Wakes(poller) => Woke(poller);
      case Resumes(gate) => Resumed(gate);
      case TimesOut(gate) => TimedOutAt(gate);
    }

    /** Whatever order the events come in, the fields go through the states of the model, so what holds of all its
        runs holds of the client. */
    method HandleAll(events: seq<Event>)
      requires Consistent(Current()) && IsRun(Current(), events)
      modifies this
      ensures Current() == After(old(Current()), events) && Consistent(Current())
    {
      for i := 0 to |events|
        invariant Consistent(Current()) && IsRun(Current(), events[i..])
        invariant After(Current(), events[i..]) == After(old(Current()), events)
      {
        assert events[i..][0] == events[i] && events[i..][1..] == events[i + 1..];
        Handle(events[i]);
      }
    }
  }

  /** A client that handles any run of events from its construction on: which of its gates are stored and closed,
      and which queries it has sent. */
  method HandleRun(events: seq<Event>) returns (client: IndexingState)
    requires IsRun(START, events)
    ensures client.Current() == After(START, events) && |client.waiters| == |client.all|
    ensures forall g :: g in client.gates ==>
              g < |client.all| && !client.all[g].open && client.all[g].blockNumber > client.blockNumber
    ensures (forall i :: 0 <= i < |events| ==> !events[i].PollFails?) ==>
              forall g :: 0 <= g < |client.all| && client.waiters[g] == Waiting && !client.all[g].open ==>
                g in client.gates && client.pollers != []
    ensures forall g :: 0 <= g < |client.all| && client.waiters[g] == Sent ==>
              || client.all[g].blockNumber <= 0
              || exists i :: 0 <= i < |events| && events[i].PollReturns? && events[i].block >= client.all[g].blockNumber
  {
    client := new IndexingState();
    client.HandleAll(events);
    forall g: GateId
      ensures g in client.gates ==>
                g < |client.all| && !client.all[g].open && client.all[g].blockNumber > client.blockNumber
    {
      NobodyStranded(events, g);
    }
    forall g: GateId | g < |client.all| && (forall i :: 0 <= i < |events| ==> !events[i].PollFails?)
      ensures client.waiters[g] == Waiting && !client.all[g].open ==> g in client.gates && client.pollers != []
    {
      NobodyStranded(events, g);
    }
    forall g | 0 <= g < |client.all| && client.waiters[g] == Sent
      ensures client.all[g].blockNumber <= 0
           || exists i :: 0 <= i < |events| && events[i].PollReturns? && events[i].block >= client.all[g].blockNumber
    {
      SentAfterIndexed(events, g);
    }
  }
}
