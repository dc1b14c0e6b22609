/** SynchronizedGraphQLClient: queries wait at gates until a poll reports that The Graph has indexed far
    enough. JavaScript runs one piece of code at a time, so a run is a sequence of the pieces between
    two awaits, in any order. */
module Indexing {

  /** A gate is known by the number of its waitUntilIndexed call. */
  type GateId = nat

  datatype Gate = Gate(blockNumber: int, open: bool)

  /** A polling loop waits either for its poll to return or for the retry interval to pass. */
  datatype Poller = Polling | Sleeping

  datatype Waiter = Waiting | Sent | TimedOut

  datatype State = State(
    blockNumber: int,
    gates: set<GateId>,
    pollers: seq<Poller>,
    requiredBlockNumber: int,
    all: seq<Gate>,           // every gate ever created, open or closed
    waiters: seq<Waiter>      // who waits at it
  )

  const START := State(0, {}, [], 0, [], [])

  datatype Event =
    | Update(blockNumber: int)              // updateRequiredBlockNumber
    | SendQuery                             // sendQuery up to its first await
    | PollReturns(poller: nat, block: int)  // a poll resolves, up to the next await of its loop
    | PollFails(poller: nat)                // a poll rejects, and with it the loop
    | Wakes(poller: nat)                    // the retry interval has passed
    | Resumes(gate: GateId)                 // an open gate lets its waiter go on to send the query
    | TimesOut(gate: GateId)                // withTimeout gives up

  function GetOrCreateGate(s: State, block: int): State {
    var closed := block > s.blockNumber;
    s.(all := s.all + [Gate(block, !closed)],
       waiters := s.waiters + [Waiting],
       gates := if closed then s.gates + {|s.all|} else s.gates,
       pollers := if closed && s.gates == {} then s.pollers + [Polling] else s.pollers)
  }

  function Opened(all: seq<Gate>, gates: set<GateId>, block: int): seq<Gate> {
    seq(|all|, i requires 0 <= i < |all| =>
      if i in gates && all[i].blockNumber <= block then all[i].(open := true) else all[i])
  }

  /** The gates that a poll with this result leaves closed. */
  function Remaining(all: seq<Gate>, gates: set<GateId>, block: int): set<GateId> {
    set g | g in gates && (g < |all| ==> all[g].blockNumber > block)
  }

  function TakePoll(s: State, block: int): State {
    if block == s.blockNumber then s else
    s.(blockNumber := block, all := Opened(s.all, s.gates, block), gates := Remaining(s.all, s.gates, block))
  }

  function Without<T>(s: seq<T>, i: nat): seq<T>
    requires i < |s|
  {
    s[..i] + s[i + 1..]
  }

  predicate Enabled(s: State, e: Event) {
    match e
    case Update(_) => true
    case SendQuery => true
    case PollReturns(p, _) => p < |s.pollers| && s.pollers[p] == Polling
    case PollFails(p) => p < |s.pollers| && s.pollers[p] == Polling
    case Wakes(p) => p < |s.pollers| && s.pollers[p] == Sleeping
    case Resumes(g) => g < |s.all| && g < |s.waiters| && s.all[g].open && s.waiters[g] == Waiting
    case TimesOut(g) => g < |s.waiters| && s.waiters[g] == Waiting
  }

  function Next(s: State, e: Event): State
    requires Enabled(s, e)
  {
    match e
    case Update(b) => s.(requiredBlockNumber := if b > s.requiredBlockNumber then b else s.requiredBlockNumber)
    case SendQuery => GetOrCreateGate(s, s.requiredBlockNumber)
    case PollReturns(p, block) =>
      var polled := TakePoll(s, block);
      polled.(pollers := if polled.gates == {} then Without(s.pollers, p) else s.pollers[p := Sleeping])
    case PollFails(p) => s.(pollers := Without(s.pollers, p))
    case Wakes(p) => s.(pollers := if s.gates == {} then Without(s.pollers, p) else s.pollers[p := Polling])
    case Resumes(g) => s.(waiters := s.waiters[g := Sent])
    case TimesOut(g) => s.(waiters := s.waiters[g := TimedOut], gates := s.gates - {g})
  }

  // ----- runs

  ghost predicate IsRun(s: State, events: seq<Event>)
    decreases |events|
  {
    events == [] || (Enabled(s, events[0]) && IsRun(Next(s, events[0]), events[1..]))
  }

  function After(s: State, events: seq<Event>): State
    requires IsRun(s, events)
    decreases |events|
  {
    if events == [] then s else After(Next(s, events[0]), events[1..])
  }

  /** The largest block number that any poll of the run returned, or `most`. */
  function HighestPoll(events: seq<Event>, most: int): int {
    if events == [] then most else HighestPoll(events[1..], Raised(most, events[0]))
  }

  function Raised(most: int, e: Event): int {
    if e.PollReturns? && e.block > most then e.block else most
  }

  // ----- invariants

  ghost predicate Consistent(s: State) {
    && |s.waiters| == |s.all|
    && (forall g :: g in s.gates ==> g < |s.all| && !s.all[g].open && s.all[g].blockNumber > s.blockNumber)
    && (forall g :: 0 <= g < |s.all| && s.waiters[g] == Waiting && !s.all[g].open ==> g in s.gates)
  }

  /** `most` bounds what was polled: open gates and sent queries ask for no more. */
  ghost predicate Reached(s: State, most: int) {
    && s.blockNumber <= most
    && (forall g :: 0 <= g < |s.all| && s.all[g].open ==> s.all[g].blockNumber <= most)
    && (forall g :: 0 <= g < |s.all| && g < |s.waiters| && s.waiters[g] == Sent ==> s.all[g].open)
  }

  /** Nobody waits without a loop that polls. */
  ghost predicate Attended(s: State) {
    s.gates != {} ==> s.pollers != []
  }

  lemma StepConsistent(s: State, e: Event)
    requires Consistent(s) && Enabled(s, e)
    ensures Consistent(Next(s, e))
  {
  }

  lemma StepReached(s: State, e: Event, most: int)
    requires Consistent(s) && Reached(s, most) && Enabled(s, e)
    ensures Reached(Next(s, e), Raised(most, e))
  {
  }

  /** A step leaves waiters without a polling loop exactly if it is the failing poll of the last loop. */
  lemma StepAttendedIff(s: State, e: Event)
    requires Attended(s) && Enabled(s, e)
    ensures Attended(Next(s, e)) <==> !(e.PollFails? && |s.pollers| == 1 && s.gates != {})
  {
    if e.Wakes? || e.PollReturns? || e.PollFails? {
      assert |Without(s.pollers, e.poller)| == |s.pollers| - 1;
    }
  }

  lemma {:induction false} RunConsistent(s: State, events: seq<Event>, most: int)
    requires IsRun(s, events) && Consistent(s) && Reached(s, most)
    ensures Consistent(After(s, events)) && Reached(After(s, events), HighestPoll(events, most))
    decreases |events|
  {
    if events != [] {
      StepConsistent(s, events[0]);
      StepReached(s, events[0], most);
      RunConsistent(Next(s, events[0]), events[1..], Raised(most, events[0]));
    }
  }

  lemma {:induction false} RunAttended(s: State, events: seq<Event>)
    requires IsRun(s, events) && Attended(s)
    requires forall i :: 0 <= i < |events| ==> !events[i].PollFails?
    ensures Attended(After(s, events))
    decreases |events|
  {
    if events != [] {
      StepAttendedIff(s, events[0]);
      RunAttended(Next(s, events[0]), events[1..]);
    }
  }

  /** Under every interleaving each stored gate is closed and asks for more than the last poll returned;
      and if no poll fails, whoever waits at a closed gate has a polling loop working for it. */
  lemma NobodyStranded(events: seq<Event>, g: GateId)
    requires IsRun(START, events)
    ensures var s := After(START, events);
            && (g in s.gates ==> g < |s.all| && !s.all[g].open && s.all[g].blockNumber > s.blockNumber)
            && ((forall i :: 0 <= i < |events| ==> !events[i].PollFails?)
                && g < |s.all| && g < |s.waiters| && s.waiters[g] == Waiting && !s.all[g].open
                ==> g in s.gates && s.pollers != [])
  {
    RunConsistent(START, events, 0);
    if forall i :: 0 <= i < |events| ==> !events[i].PollFails? {
      RunAttended(START, events);
    }
  }

  /** A query is sent only after some poll returned at least the block number it was required to wait for
      (or none was required). */
  lemma SentAfterIndexed(events: seq<Event>, g: GateId)
    requires IsRun(START, events)
    requires var s := After(START, events); g < |s.all| && g < |s.waiters| && s.waiters[g] == Sent
    ensures var required := After(START, events).all[g].blockNumber;
            required <= 0 || exists i :: 0 <= i < |events| && events[i].PollReturns? && events[i].block >= required
  {
    RunConsistent(START, events, 0);
    HighestPollWitness(events, 0);
  }

  lemma {:induction false} HighestPollWitness(events: seq<Event>, most: int)
    ensures HighestPoll(events, most) == most
         || exists i :: 0 <= i < |events| && events[i].PollReturns? && events[i].block == HighestPoll(events, most)
  {
    if events != [] {
      HighestPollWitness(events[1..], Raised(most, events[0]));
      if HighestPoll(events[1..], Raised(most, events[0])) != Raised(most, events[0]) {
        var i :| 0 <= i < |events[1..]| && events[1..][i].PollReturns?
                 && events[1..][i].block == HighestPoll(events[1..], Raised(most, events[0]));
        assert events[i + 1] == events[1..][i];
      }
    }
  }

  /** The largest block number notified along a run, or `most`. */
  function HighestUpdate(events: seq<Event>, most: int): int {
    if events == [] then most else HighestUpdate(events[1..], Notified(most, events[0]))
  }

  function Notified(most: int, e: Event): int {
    if e.Update? && e.blockNumber > most then e.blockNumber else most
  }

  lemma {:induction false} RequiredIsHighest(s: State, events: seq<Event>)
    requires IsRun(s, events)
    ensures After(s, events).requiredBlockNumber == HighestUpdate(events, s.requiredBlockNumber)
    decreases |events|
  {
    if events != [] {
      RequiredIsHighest(Next(s, events[0]), events[1..]);
    }
  }

  lemma {:induction false} RunSplit(s: State, before: seq<Event>, after: seq<Event>)
    requires IsRun(s, before + after)
    ensures IsRun(s, before) && IsRun(After(s, before), after)
    ensures After(s, before + after) == After(After(s, before), after)
    decreases |before|
  {
    if before == [] {
      assert before + after == after;
    } else {
      assert (before + after)[1..] == before[1..] + after;
      RunSplit(Next(s, before[0]), before[1..], after);
    }
  }

  lemma {:induction false} GateKept(s: State, events: seq<Event>, g: GateId)
    requires IsRun(s, events) && g < |s.all|
    ensures g < |After(s, events).all| && After(s, events).all[g].blockNumber == s.all[g].blockNumber
    decreases |events|
  {
    if events != [] {
      GateKept(Next(s, events[0]), events[1..], g);
    }
  }

  lemma {:induction false} UpdateCovered(events: seq<Event>, most: int, i: nat)
    requires i < |events| && events[i].Update?
    ensures events[i].blockNumber <= HighestUpdate(events, most)
    ensures most <= HighestUpdate(events, most)
  {
    UpdateMonotone(events[1..], Notified(most, events[0]));
    if i > 0 {
      UpdateCovered(events[1..], Notified(most, events[0]), i - 1);
    }
  }

  lemma {:induction false} UpdateMonotone(events: seq<Event>, most: int)
    ensures most <= HighestUpdate(events, most)
  {
    if events != [] {
      UpdateMonotone(events[1..], Notified(most, events[0]));
    }
  }

  /** A query is sent only once The Graph has reached every block that the client was notified of before
      the query was made. */
  lemma QuerySeesWrites(before: seq<Event>, after: seq<Event>, i: nat)
    requires var events := before + ([SendQuery] + after);
             && IsRun(START, events)
             && IsRun(START, before)
             && var g, s := |After(START, before).all|, After(START, events);
                g < |s.waiters| && s.waiters[g] == Sent
    requires i < |before| && before[i].Update?
    ensures var events := before + ([SendQuery] + after);
            before[i].blockNumber <= 0
            || exists j :: 0 <= j < |events| && events[j].PollReturns? && events[j].block >= before[i].blockNumber
  {
    var events := before + ([SendQuery] + after);
    RunSplit(START, before, [SendQuery] + after);
    var s := After(START, before);
    var g := |s.all|;
    RequiredIsHighest(START, before);
    UpdateCovered(before, 0, i);
    assert ([SendQuery] + after)[1..] == after;
    GateKept(Next(s, SendQuery), after, g);
    SentAfterIndexed(events, g);
  }

  // ----- after a failure

  /** From a state with waiters and no polling loop, the one step that ends it is the timeout of the last stored
      gate. */
  lemma StepReattendsIff(s: State, e: Event)
    requires !Attended(s) && Enabled(s, e)
    ensures Attended(Next(s, e)) <==> e.TimesOut? && s.gates == {e.gate}
  {
    if e.TimesOut? {
      assert s.gates - {e.gate} == {} <==> s.gates == {e.gate};
    }
  }

  /** Gates are stored after every prefix of the run. */
  ghost predicate KeepsWaiting(s: State, events: seq<Event>)
    requires IsRun(s, events)
    decreases |events|
  {
    s.gates != {} && (events != [] ==> KeepsWaiting(Next(s, events[0]), events[1..]))
  }

  /** As long as gates are stored no query starts a loop: nothing is polled and nobody is let through, however many
      queries are made. */
  lemma {:induction false} StrandedWhileWaiting(s: State, events: seq<Event>)
    requires IsRun(s, events) && !Attended(s) && KeepsWaiting(s, events)
    ensures After(s, events).pollers == [] && After(s, events).blockNumber == s.blockNumber
    ensures forall i :: 0 <= i < |events| ==> !events[i].PollReturns?
    decreases |events|
  {
    if events != [] {
      StepReattendsIff(s, events[0]);
      StrandedWhileWaiting(Next(s, events[0]), events[1..]);
    }
  }

  /** Once none is stored, the next query that has to wait starts a loop again. */
  lemma QueryStartsPolling(s: State)
    requires s.gates == {} && s.requiredBlockNumber > s.blockNumber
    ensures Next(s, SendQuery).gates == {|s.all|} && Next(s, SendQuery).pollers == s.pollers + [Polling]
  {
  }

  function FailedPoll(): State {
    State(0, {0}, [], 5, [Gate(5, false)], [Waiting])
  }

  /** One failed poll leaves a waiter without a loop. */
  lemma FailureStrands()
    ensures var events := [Update(5), SendQuery, PollFails(0)];
            IsRun(START, events) && After(START, events) == FailedPoll() && !Attended(FailedPoll())
  {
    var s1 := Next(START, Update(5));
    var s2 := Next(s1, SendQuery);
    var events := [Update(5), SendQuery, PollFails(0)];
    assert events[1..][1..] == [PollFails(0)] && events[1..][1..][1..] == [];
    assert s2 == State(0, {0}, [Polling], 5, [Gate(5, false)], [Waiting]);
    assert Next(s2, PollFails(0)) == FailedPoll();
    assert IsRun(FailedPoll(), []) && IsRun(s2, [PollFails(0)]) && IsRun(s1, events[1..]);
    assert After(s2, [PollFails(0)]) == FailedPoll() == After(s1, events[1..]);
  }

  /** A query made meanwhile waits in vain as well. A query made after the timeout is polled for. */
  lemma LaterQueries()
    ensures var s := Next(FailedPoll(), SendQuery);
            s.gates == {0, 1} && s.pollers == []
    ensures var s := Next(Next(FailedPoll(), TimesOut(0)), SendQuery);
            s.gates == {1} && s.pollers == [Polling]
  {
    assert Next(FailedPoll(), TimesOut(0)).gates == {};
  }

  // ----- polling loops

  /** A loop that has been polling or sleeping ends exactly if no gate is stored any more when it looks. */
  lemma LoopEndsIff(s: State, e: Event)
    requires Enabled(s, e) && (e.PollReturns? || e.Wakes?)
    ensures |Next(s, e).pollers| == |s.pollers| - (if Next(s, e).gates == {} then 1 else 0)
    ensures Next(s, e).gates == {} ==> Next(s, e).pollers == s.pollers[..e.poller] + s.pollers[e.poller + 1..]
    ensures Next(s, e).gates != {} ==>
              Next(s, e).pollers == s.pollers[e.poller := if e.PollReturns? then Sleeping else Polling]
  {
  }

  /** A loop starts exactly if a query has to wait and no gate is stored; whether a loop is still alive is not asked. */
  lemma LoopStartsIff(s: State, e: Event)
    requires Enabled(s, e)
    ensures |Next(s, e).pollers| > |s.pollers|
       <==> e.SendQuery? && s.gates == {} && s.requiredBlockNumber > s.blockNumber
    ensures |Next(s, e).pollers| <= |s.pollers| + 1
  {
  }

  /** So there come to be two loops exactly if a query has to wait while a loop has outlived all its gates. */
  lemma SecondLoopIff(s: State, e: Event)
    requires Enabled(s, e) && |s.pollers| <= 1
    ensures |Next(s, e).pollers| > 1
       <==> e.SendQuery? && s.gates == {} && s.requiredBlockNumber > s.blockNumber && |s.pollers| == 1
  {
    LoopStartsIff(s, e);
  }

  /** A gate that times out while its loop is waiting for the poll, and a query after that: two loops. */
  lemma TwoLoops()
    ensures var s := Next(Next(Next(Next(START, Update(5)), SendQuery), TimesOut(0)), SendQuery);
            s.gates == {1} && s.pollers == [Polling, Polling]
  {
    var s := Next(Next(START, Update(5)), SendQuery);
    assert s == State(0, {0}, [Polling], 5, [Gate(5, false)], [Waiting]);
    assert Next(s, TimesOut(0)).gates == {};
  }

  // ----- what becomes of a waiter

  /** A waiter is through when it resumes, out when it times out, and waits otherwise. */
  lemma WaiterAfter(s: State, e: Event, g: GateId)
    requires Enabled(s, e) && g < |s.waiters|
    ensures g < |Next(s, e).waiters|
    ensures Next(s, e).waiters[g]
         == if e == Resumes(g) then Sent else if e == TimesOut(g) then TimedOut else s.waiters[g]
  {
  }

  /** A query gets a gate of its own for the block required at that time. It waits if that block is beyond the last
      one polled, and may go on at once otherwise. */
  lemma QueryWaitsIff(s: State)
    requires Consistent(s)
    ensures var s', g := Next(s, SendQuery), |s.all|;
            && |s'.all| == |s'.waiters| == g + 1 && s'.all[..g] == s.all && s'.waiters == s.waiters + [Waiting]
            && s'.all[g].blockNumber == s.requiredBlockNumber
            && (g in s'.gates <==> s.requiredBlockNumber > s.blockNumber)
            && (Enabled(s', Resumes(g)) <==> s.requiredBlockNumber <= s.blockNumber)
            && s'.blockNumber == s.blockNumber && s'.requiredBlockNumber == s.requiredBlockNumber
  {
  }

  /** A poll that returns the block a waiter waits for, or a later one, lets it go on. */
  lemma PolledMayResume(s: State, poller: nat, block: int, g: GateId)
    requires Consistent(s) && Enabled(s, PollReturns(poller, block))
    requires g < |s.all| && s.waiters[g] == Waiting && s.all[g].blockNumber <= block
    ensures Enabled(Next(s, PollReturns(poller, block)), Resumes(g))
  {
  }

  /** A gate is opened by a poll exactly if it is stored and asks for no more than the poll returned. */
  lemma OpenedIff(s: State, poller: nat, block: int, g: GateId)
    requires Consistent(s) && Enabled(s, PollReturns(poller, block)) && g < |s.all|
    ensures var s' := Next(s, PollReturns(poller, block));
            && g < |s'.all|
            && (s'.all[g].open <==> s.all[g].open || (g in s.gates && s.all[g].blockNumber <= block))
            && (g in s'.gates <==> g in s.gates && s.all[g].blockNumber > block)
            && s'.blockNumber == block
  {
  }
}
