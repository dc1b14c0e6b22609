/** The reporting schedule in numbers: milliseconds and seconds, the factor of ten billion, and who may report when. */
module Clock {
  import opened Arithmetic
  import opened Evm
  import opened Schedule
  import opened Sequences

  import Acceptance
  import Ranking
  import ReportManager
  import Reports

  /** The sum of the timestamps, from the front. */
  function SumOf(timestamps: seq<Uint256>): nat {
    if timestamps == [] then 0 else timestamps[0] + SumOf(timestamps[1..])
  }

  lemma {:induction false} TotalIsSum(timestamps: seq<Uint256>)
    ensures Total(timestamps) == SumOf(timestamps)
    decreases |timestamps|
  {
    if |timestamps| > 1 {
      var n := |timestamps|;
      TotalIsSum(timestamps[..n - 1]);
      TotalIsSum(timestamps[1..]);
      TotalIsSum(timestamps[1..][..n - 2]);
      assert timestamps[..n - 1][1..] == timestamps[1..][..n - 2];
    }
  }

  /** `mean` is the mean of the timestamps times ten billion, rounded down. */
  ghost predicate IsMean(mean: nat, timestamps: seq<Uint256>) {
    && timestamps != []
    && |timestamps| * mean <= 10_000_000_000 * SumOf(timestamps) < |timestamps| * (mean + 1)
  }

  /** The mean is computed exactly if there are timestamps and their scaled sum is a word. */
  lemma MeanIff(timestamps: seq<Uint256>, mean: Uint256)
    ensures MeanOf(timestamps) == Ok(mean)
       <==> 10_000_000_000 * SumOf(timestamps) <= UINT256_MAX && IsMean(mean, timestamps)
    ensures MeanOf(timestamps).Ok? <==> timestamps != [] && 10_000_000_000 * SumOf(timestamps) <= UINT256_MAX
  {
    TotalIsSum(timestamps);
    if timestamps != [] {
      var scaled, n := 10_000_000_000 * SumOf(timestamps), |timestamps|;
      DivMod(scaled, n);
      assert n * (mean + 1) == n * mean + n && n * mean == mean * n;
      if IsMean(mean, timestamps) {
        DivUnique(scaled, n, mean, scaled - mean * n);
      }
    }
  }

  /** The time that counts: the one set for testing if there is one, else the block's, with its seconds turned into
      milliseconds and scaled by ten billion. */
  function TimeOf(testTimestamp: Uint256, block: Block): nat {
    if testTimestamp > 0 then testTimestamp else block.timestamp * 1000 * 10_000_000_000
  }

  lemma TimeIff(testTimestamp: Uint256, block: Block)
    ensures BlockTimestamp(testTimestamp, block)
         == if TimeOf(testTimestamp, block) <= UINT256_MAX then Ok(TimeOf(testTimestamp, block))
            else Revert(PANIC_ARITHMETIC)
  {
  }

  /** The first multiple of the cycle time, counted from the mean, that is later than `now`. */
  function NextCycle(mean: nat, cycleTime: nat, now: nat): int
    requires cycleTime > 0 && now >= mean
  {
    mean + ((now - mean) / cycleTime + 1) * cycleTime
  }

  lemma NextCycleIsNext(mean: nat, cycleTime: nat, now: nat)
    requires cycleTime > 0 && now >= mean
    ensures NextCycle(mean, cycleTime, now) - cycleTime <= now < NextCycle(mean, cycleTime, now)
    ensures CycleEnd(mean, cycleTime, now) == NextCycle(mean, cycleTime, now)
  {
    var q := (now - mean) / cycleTime;
    DivMod(now - mean, cycleTime);
    assert (q + 1) * cycleTime == q * cycleTime + cycleTime;
  }

  /** It is the turn of `x`: the number of whole slots since the mean, modulo the number of reporters, is its rank. And
      the end of the current cycle is a word. */
  predicate HasTurn(x: Address, list: seq<Address>, buffer: nat, mean: nat, now: nat) {
    && list != [] && buffer > 0 && now >= mean
    && x == list[(now - mean) / buffer % |list|]
    && buffer * |list| <= UINT256_MAX
    && (buffer * |list| > 0 ==> NextCycle(mean, buffer * |list|, now) <= UINT256_MAX)
  }

  lemma HasTurnIff(x: Address, list: seq<Address>, timestamps: seq<Uint256>, buffer: Uint256, now: Uint256)
    requires Distinct(list) && list != [] && MeanOf(timestamps).Ok?
    ensures CanReport(x, list, timestamps, buffer, now) == Ok(true)
       <==> HasTurn(x, list, buffer, MeanOf(timestamps).value, now)
  {
    var mean := MeanOf(timestamps).value;
    Acceptance.CanReportIff(x, list, timestamps, buffer, now);
    if buffer > 0 && now >= mean {
      MulMonotone(1, |list|, buffer);
      NextCycleIsNext(mean, buffer * |list|, now);
    }
  }

  /** `_canReport` says yes exactly if the scaled sum of the timestamps and the time are words and it is the sender's
      turn, counted from the mean of the timestamps. */
  lemma MayReportIff(x: Address, list: seq<Address>, timestamps: seq<Uint256>, buffer: Uint256, testTimestamp: Uint256,
                     block: Block, mean: nat)
    requires Distinct(list) && list != [] && IsMean(mean, timestamps)
    ensures CanReportIn(x, list, timestamps, buffer, testTimestamp, block) == Ok(true)
       <==> && 10_000_000_000 * SumOf(timestamps) <= UINT256_MAX && TimeOf(testTimestamp, block) <= UINT256_MAX
            && HasTurn(x, list, buffer, mean, TimeOf(testTimestamp, block))
  {
    TimeIff(testTimestamp, block);
    MeanIff(timestamps, 0);
    if 10_000_000_000 * SumOf(timestamps) <= UINT256_MAX {
      MeanFits(mean, timestamps);
      MeanIff(timestamps, mean);
      if TimeOf(testTimestamp, block) <= UINT256_MAX {
        HasTurnIff(x, list, timestamps, buffer, TimeOf(testTimestamp, block));
      }
    }
  }

  lemma MeanFits(mean: nat, timestamps: seq<Uint256>)
    requires IsMean(mean, timestamps) && 10_000_000_000 * SumOf(timestamps) <= UINT256_MAX
    ensures mean <= UINT256_MAX
  {
    MulMonotone(1, |timestamps|, mean);
  }

  /** A report passes its checks only at its sender's turn in this sense. */
  lemma AdmittedOnTime(st: ReportManager.State, members: seq<Address>, staked: bool, block: Block, sender: Address,
                       p: Reports.Arguments, mean: nat)
    requires Distinct(members) && ReportManager.Admit(st, Ok(members), staked, block, sender, p).Ok?
    ensures p.proofTimestamps != []
    ensures IsMean(mean, p.proofTimestamps) ==>
              HasTurn(sender, Ranking.Ranked(members, st.reputationOf), st.reportTimeBuffer, mean,
                      TimeOf(st.testTimestamp, block))
  {
    var reporters := Ranking.Ranked(members, st.reputationOf);
    Ranking.RankedDistinct(members, st.reputationOf);
    ReportManager.AdmittedOnTurn(st, members, staked, block, sender, p);
    MeanIff(p.proofTimestamps, 0);
    if IsMean(mean, p.proofTimestamps) {
      MayReportIff(sender, reporters, p.proofTimestamps, st.reportTimeBuffer, st.testTimestamp, block, mean);
    }
  }

  /** A block at second 1_700_000_000 and one proof at that time in milliseconds: it is the first reporter's turn. */
  lemma FirstTurn(a: Address, b: Address)
    requires a != b
    ensures var timestamps, block := [1_700_000_000_000], Block(1, 1_700_000_000);
            && CanReportIn(a, [a, b], timestamps, 10_000_000_000, 0, block) == Ok(true)
            && CanReportIn(b, [a, b], timestamps, 10_000_000_000, 0, block) == Ok(false)
  {
    var timestamps: seq<Uint256>, block := [1_700_000_000_000], Block(1, 1_700_000_000);
    var mean: nat := 17_000_000_000_000_000_000_000;
    assert timestamps[1..] == [] && SumOf(timestamps) == 1_700_000_000_000;
    assert IsMean(mean, timestamps) && TimeOf(0, block) == mean;
    MayReportIff(a, [a, b], timestamps, 10_000_000_000, 0, block, mean);
    MeanIff(timestamps, mean);
    TimeIff(0, block);
    OneReporterAtATime([a, b], timestamps, 10_000_000_000, mean, b);
  }
}
