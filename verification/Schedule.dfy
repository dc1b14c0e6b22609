/** LogStoreReportManager's time slots: counted from the mean proof timestamp, each reporter in turn
    has `reportTimeBuffer` to submit, in rank order and over and over again. */
module Schedule {
  import opened Arithmetic
  import opened Evm
  import opened Sequences

  const MATH_PRECISION: Uint256 := 10_000_000_000

  function Total(timestamps: seq<Uint256>): nat {
    if timestamps == [] then 0 else Total(timestamps[..|timestamps| - 1]) + timestamps[|timestamps| - 1]
  }

  function MeanOf(timestamps: seq<Uint256>): Outcome<Uint256> {
    if Total(timestamps) * MATH_PRECISION > UINT256_MAX then Revert(PANIC_ARITHMETIC)
    else if timestamps == [] then Revert(PANIC_DIVISION)
    else
      DivAtMost(Total(timestamps) * MATH_PRECISION, |timestamps|);
      Ok(Total(timestamps) * MATH_PRECISION / |timestamps|)
  }

  function BlockTimestamp(testTimestamp: Uint256, block: Block): Outcome<Uint256> {
    if testTimestamp > 0 then Ok(testTimestamp)
    else if block.timestamp * 1000 * MATH_PRECISION > UINT256_MAX then Revert(PANIC_ARITHMETIC)
    else Ok(block.timestamp * 1000 * MATH_PRECISION)
  }

  function IndexOf(list: seq<Address>, x: Address): (i: nat)
    ensures i <= |list|
    ensures i < |list| ==> list[i] == x
    ensures i < |list| <==> x in list
    ensures x !in list[..i]
  {
    if list == [] || list[0] == x then 0 else 1 + IndexOf(list[1..], x)
  }

  /** The rank whose turn it is: a closed form for the contract's search through the cycles. */
  function Turn(mean: nat, buffer: nat, n: nat, now: nat): int
    requires buffer > 0 && n > 0 && now >= mean
  {
    (now - mean) / buffer % n
  }

  function Eligible(x: Address, list: seq<Address>, mean: nat, buffer: nat, now: nat): bool {
    && buffer > 0 && now >= mean && x in list
    && IndexOf(list, x) == Turn(mean, buffer, |list|, now)
  }

  /** When the cycle that contains `now` ends, or the first cycle if `now` is before all of them. */
  function CycleEnd(mean: nat, cycleTime: nat, now: nat): int {
    mean + if now < mean || cycleTime == 0 then cycleTime else ((now - mean) / cycleTime + 1) * cycleTime
  }

  /** `_canReport` at a given time. The search never ends if a cycle takes no time, and so runs out of gas. */
  function CanReport(x: Address, list: seq<Address>, timestamps: seq<Uint256>, buffer: Uint256,
                     now: Uint256): Outcome<bool> {
    var mean :- MeanOf(timestamps);
    if buffer * |list| > UINT256_MAX then Revert(PANIC_ARITHMETIC)
    else if buffer * |list| == 0 && now >= mean then Revert(OUT_OF_GAS)
    else if CycleEnd(mean, buffer * |list|, now) > UINT256_MAX then Revert(PANIC_ARITHMETIC)
    else Ok(Eligible(x, list, mean, buffer, now))
  }

  /** `_canReport` in a block: the mean is computed before the time is read. */
  function CanReportIn(x: Address, list: seq<Address>, timestamps: seq<Uint256>, buffer: Uint256,
                       testTimestamp: Uint256, block: Block): Outcome<bool> {
    var _ :- MeanOf(timestamps);
    var now :- BlockTimestamp(testTimestamp, block);
    CanReport(x, list, timestamps, buffer, now)
  }

  // ----- the slots partition time

  /** Position within the cycle and turn: `d` lies in slot `i` of its cycle iff `i` is `d / b` modulo `n`. */
  lemma SlotIsTurn(d: nat, b: nat, n: nat, cycle: nat, i: nat)
    requires b > 0 && n > 0 && i < n
    requires cycle * (b * n) <= d < (cycle + 1) * (b * n)
    ensures i * b + cycle * (b * n) <= d < (i + 1) * b + cycle * (b * n) <==> i == d / b % n
  {
    var r := d - cycle * (b * n);
    var s, t := r / b, r % b;
    DivMod(r, b);
    DivNonNegative(r, b);
    assert (cycle + 1) * (b * n) == cycle * (b * n) + b * n;
    assert n * b == b * n;
    if s >= n {
      MulMonotone(n, s, b);
    }
    assert d == (cycle * n + s) * b + t by {
      assert cycle * (b * n) == cycle * n * b;
      assert (cycle * n + s) * b == cycle * n * b + s * b;
    }
    DivUnique(d, b, cycle * n + s, t);
    DivUnique(cycle * n + s, n, cycle, s);
    assert (i + 1) * b == i * b + b;
    if i < s {
      MulMonotone(i + 1, s, b);
    } else if i > s {
      MulMonotone(s + 1, i, b);
      assert (s + 1) * b == s * b + b;
    }
  }

  /** At every time from the mean on exactly one reporter may submit; before it nobody may. */
  lemma OneReporterAtATime(list: seq<Address>, timestamps: seq<Uint256>, buffer: Uint256, now: Uint256, x: Address)
    requires Distinct(list) && list != []
    requires CanReport(x, list, timestamps, buffer, now).Ok?
    ensures MeanOf(timestamps).Ok?
    ensures var mean := MeanOf(timestamps).value;
            CanReport(x, list, timestamps, buffer, now)
              == Ok(now >= mean && x == list[(now - mean) / buffer % |list|])
  {
    var mean := MeanOf(timestamps).value;
    if now >= mean {
      assert buffer != 0;
      var turn := Turn(mean, buffer, |list|, now);
      DivNonNegative(now - mean, buffer);
      DivMod((now - mean) / buffer, |list|);
      if x in list {
        DistinctAt(list, IndexOf(list, x), turn);
      }
    }
  }

  /** The points in time from `lo` up to, but not including, `hi`. */
  ghost function Times(lo: int, hi: int): set<int>
    decreases hi - lo
  {
    if lo >= hi then {} else Times(lo, hi - 1) + {hi - 1}
  }

  lemma {:induction false} TimesSize(lo: int, hi: int)
    requires lo <= hi
    ensures |Times(lo, hi)| == hi - lo
    ensures forall t :: t in Times(lo, hi) <==> lo <= t < hi
    decreases hi - lo
  {
    if lo < hi {
      TimesSize(lo, hi - 1);
    }
  }

  /** The times of one full cycle at which `x` is eligible. */
  ghost function TurnsOf(x: Address, list: seq<Address>, mean: nat, buffer: nat, cycle: nat): set<int> {
    set t | t in Times(mean + cycle * (buffer * |list|), mean + (cycle + 1) * (buffer * |list|))
            && t >= 0 && Eligible(x, list, mean, buffer, t)
  }

  /** Where slot `i` lies in its cycle. */
  lemma SlotInCycle(i: nat, n: nat, b: nat, cycle: nat)
    requires i < n && b > 0
    ensures 0 <= cycle * (b * n) && 0 <= i * b && i * b + b <= b * n
    ensures (i + 1) * b == i * b + b && (cycle + 1) * (b * n) == cycle * (b * n) + b * n
  {
    MulNonNegative(b, n);
    MulNonNegative(cycle, b * n);
    MulNonNegative(i, b);
    MulMonotone(i + 1, n, b);
    assert (i + 1) * b == i * b + b && n * b == b * n;
  }

  lemma TurnIff(x: Address, list: seq<Address>, mean: nat, buffer: nat, t: nat, first: nat, start: nat, cycle: nat)
    requires x in list && buffer > 0
    requires first == mean + cycle * (buffer * |list|) && start == first + IndexOf(list, x) * buffer
    requires first <= t < first + buffer * |list|
    ensures Eligible(x, list, mean, buffer, t) <==> start <= t < start + buffer
  {
    SlotInCycle(IndexOf(list, x), |list|, buffer, cycle);
    SlotIsTurn(t - mean, buffer, |list|, cycle, IndexOf(list, x));
  }

  /** Every reporter gets the same share: exactly `buffer` points in time of each full cycle. */
  lemma EqualShares(x: Address, list: seq<Address>, mean: nat, buffer: nat, cycle: nat)
    requires x in list && buffer > 0
    ensures |TurnsOf(x, list, mean, buffer, cycle)| == buffer
  {
    SlotInCycle(IndexOf(list, x), |list|, buffer, cycle);
    var first: nat, length: nat := mean + cycle * (buffer * |list|), buffer * |list|;
    var start: nat := first + IndexOf(list, x) * buffer;
    assert mean + (cycle + 1) * (buffer * |list|) == first + length;
    TurnsAre(x, list, mean, buffer, first, start, length, cycle);
    TimesSize(start, start + buffer);
  }

  lemma TurnsAre(x: Address, list: seq<Address>, mean: nat, buffer: nat, first: nat, start: nat, length: nat,
                 cycle: nat)
    requires x in list && buffer > 0
    requires length == buffer * |list| && first == mean + cycle * (buffer * |list|)
    requires mean + (cycle + 1) * (buffer * |list|) == first + length
    requires start == first + IndexOf(list, x) * buffer && first <= start && start + buffer <= first + length
    ensures TurnsOf(x, list, mean, buffer, cycle) == Times(start, start + buffer)
  {
    TimesSize(start, start + buffer);
    TimesSize(first, first + length);
    forall t: int ensures t in TurnsOf(x, list, mean, buffer, cycle) <==> t in Times(start, start + buffer) {
      if first <= t < first + length {
        TurnIff(x, list, mean, buffer, t, first, start, cycle);
      }
    }
  }

  // ----- the contract's loops

  lemma {:induction false} TotalPrefix(timestamps: seq<Uint256>, k: nat)
    requires k <= |timestamps|
    ensures Total(timestamps[..k]) <= Total(timestamps)
    decreases |timestamps|
  {
    if k == |timestamps| {
      assert timestamps[..k] == timestamps;
    } else {
      var most := timestamps[..|timestamps| - 1];
      TotalPrefix(most, k);
      assert most[..k] == timestamps[..k];
    }
  }

  method AggregateTimestamps(timestamps: seq<Uint256>) returns (r: Outcome<Uint256>)
    ensures r == MeanOf(timestamps)
  {
    var sum: Uint256 := 0;
    for i := 0 to |timestamps|
      invariant sum == Total(timestamps[..i]) * MATH_PRECISION
    {
      assert timestamps[..i + 1][..i] == timestamps[..i];
      assert Total(timestamps[..i + 1]) == Total(timestamps[..i]) + timestamps[i];
      TotalPrefix(timestamps, i + 1);
      if timestamps[i] * MATH_PRECISION > UINT256_MAX || sum + timestamps[i] * MATH_PRECISION > UINT256_MAX {
        return Revert(PANIC_ARITHMETIC);
      }
      sum := sum + timestamps[i] * MATH_PRECISION;
    }
    assert timestamps[..|timestamps|] == timestamps;
    if |timestamps| == 0 {
      return Revert(PANIC_DIVISION);
    }
    DivAtMost(sum, |timestamps|);
    return Ok(sum / |timestamps|);
  }

  /** Lines 358-369: the search for the current cycle, which ends because every cycle takes time. */
  method CurrentCycle(mean: Uint256, cycleTime: Uint256, now: Uint256) returns (r: Outcome<nat>)
    requires cycleTime > 0 || now < mean
    ensures r.Revert? <==> CycleEnd(mean, cycleTime, now) > UINT256_MAX
    ensures r.Revert? ==> r.reason == PANIC_ARITHMETIC
    ensures r.Ok? && now < mean ==> r.value == 0
    ensures r.Ok? && now >= mean ==> r.value * cycleTime <= now - mean < (r.value + 1) * cycleTime
    ensures r.Ok? ==> (r.value + 1) * cycleTime + mean <= UINT256_MAX
  {
    var cycle: nat := 0;
    while true
      invariant cycle == 0 || cycle * cycleTime + mean <= now
      decreases now - cycle * cycleTime
    {
      assert (cycle + 1) * cycleTime == cycle * cycleTime + cycleTime;
      InCycle(mean, cycleTime, now, cycle);
      if (cycle + 1) * cycleTime + mean > UINT256_MAX {
        return Revert(PANIC_ARITHMETIC);
      }
      if now < (cycle + 1) * cycleTime + mean {
        return Ok(cycle);
      }
      cycle := cycle + 1;
    }
  }

  lemma InCycle(mean: nat, cycleTime: nat, now: nat, cycle: nat)
    requires cycleTime > 0 || now < mean
    requires cycle == 0 || cycle * cycleTime + mean <= now
    ensures (cycle + 1) * cycleTime + mean <= CycleEnd(mean, cycleTime, now)
    ensures now < (cycle + 1) * cycleTime + mean ==> CycleEnd(mean, cycleTime, now) == (cycle + 1) * cycleTime + mean
  {
    if now >= mean {
      var d := now - mean;
      var k := d / cycleTime;
      DivMod(d, cycleTime);
      DivNonNegative(d, cycleTime);
      assert (k + 1) * cycleTime == k * cycleTime + cycleTime;
      assert (cycle + 1) * cycleTime == cycle * cycleTime + cycleTime;
      if cycle > k {
        MulMonotone(k + 1, cycle, cycleTime);
      } else if cycle < k {
        MulMonotone(cycle + 1, k, cycleTime);
      }
    }
  }

  method MayReport(x: Address, list: seq<Address>, timestamps: seq<Uint256>, buffer: Uint256, testTimestamp: Uint256,
                   block: Block)
    returns (r: Outcome<bool>)
    ensures r == CanReportIn(x, list, timestamps, buffer, testTimestamp, block)
  {
    var mean :- AggregateTimestamps(timestamps);
    var now :- BlockTimestamp(testTimestamp, block);
    MulNonNegative(buffer, |list|);
    if buffer * |list| > UINT256_MAX {
      return Revert(PANIC_ARITHMETIC);
    }
    var cycleTime: Uint256 := buffer * |list|;
    if cycleTime == 0 && now >= mean {
      return Revert(OUT_OF_GAS);
    }
    var cycle :- CurrentCycle(mean, cycleTime, now);
    var fromTime := cycle * cycleTime + mean;
    for i := 0 to |list|
      invariant x !in list[..i]
    {
      if list[i] == x {
        assert IndexOf(list, x) == i;
        var start := i * buffer + fromTime;
        var end := (i + 1) * buffer + fromTime;
        if now >= mean {
          SlotIsTurn(now - mean, buffer, |list|, cycle, i);
        } else {
          MulNonNegative(i, buffer);
        }
        return Ok(now >= start && now < end);
      }
    }
    return Ok(false);
  }
}
