/**
 * The simulation driver: one production line fed, in a nested loop, every
 * part of every product type, and the log that run produces.
 */
module Driver {
  import opened Stages
  import opened Events
  import opened Line

  /** Parts of each type the inner loop feeds for a requested `count`: none when `count` is not positive. */
  function PartsFed(count: int): nat
  {
    if count > 0 then count else 0
  }

  /** Clock ticks `count` parts of one type take, one after the other. */
  function BatchTime(productType: int, count: int): nat
    decreases count
  {
    if count <= 0 then 0 else BatchTime(productType, count - 1) + PartTime(productType)
  }

  /** The log of parts 1 .. count of one type, fed one after the other from `clock` on. */
  function Batch(productType: int, count: int, clock: int): seq<LogEntry>
    decreases count
  {
    if count <= 0 then []
    else Batch(productType, count - 1, clock) + PartEntries(count, productType, clock + BatchTime(productType, count - 1))
  }

  /** The clock once every part of types 1 .. types has been fed. */
  function RunClock(types: nat, count: int): int
  {
    if types == 0 then 0 else RunClock(types - 1, count) + BatchTime(types, count)
  }

  /** The log once every part of types 1 .. types, `count` of each, has been fed. */
  function RunTypes(types: nat, count: int): seq<LogEntry>
  {
    if types == 0 then [] else RunTypes(types - 1, count) + Batch(types, count, RunClock(types - 1, count))
  }

  /** The log a run with `count` parts per type produces. */
  function RunLog(count: int): seq<LogEntry>
  {
    RunTypes(NumProductTypes, count)
  }

  /** Feeding `count` parts advances the clock by `count` times one part's time. */
  lemma {:induction false} BatchTimeValue(productType: int, count: int)
    ensures BatchTime(productType, count) == PartsFed(count) * PartTime(productType)
    decreases count
  {
    if count > 0 {
      BatchTimeValue(productType, count - 1);
    }
  }

  /** A batch is one timeline from its first clock reading to the time of `count` parts later. */
  lemma {:induction false} BatchTimeline(productType: int, count: int, clock: int)
    ensures Timeline(Batch(productType, count, clock), clock, clock + BatchTime(productType, count))
    decreases count
  {
    if count > 0 {
      var start := clock + BatchTime(productType, count - 1);
      BatchTimeline(productType, count - 1, clock);
      PartEntriesShape(count, productType, start);
      TimelineConcat(Batch(productType, count - 1, clock), PartEntries(count, productType, start),
        clock, start, start + PartTime(productType));
    }
  }

  /**
   * In a batch, entry k is the pass of part k / 5 + 1 through stage k mod 5,
   * the part having entered the line once the k / 5 parts before it were
   * done.
   */
  lemma {:induction false} BatchEntries(productType: int, count: int, clock: int)
    ensures var log := Batch(productType, count, clock);
      && |log| == 5 * PartsFed(count)
      && (forall k :: 0 <= k < |log| ==>
           log[k] == Entry(k / 5 + 1, productType, clock + (k / 5) * PartTime(productType), k % 5))
    decreases count
  {
    if count > 0 {
      var start := clock + BatchTime(productType, count - 1);
      var part := PartEntries(count, productType, start);
      var log := Batch(productType, count, clock);
      BatchEntries(productType, count - 1, clock);
      assert start == clock + (count - 1) * PartTime(productType) by { BatchTimeValue(productType, count - 1); }
      assert |part| == 5 by { StagesToLayout(count, productType, start, StageCount); }
      forall k | 5 * (count - 1) <= k < |log|
        ensures log[k] == Entry(k / 5 + 1, productType, clock + (k / 5) * PartTime(productType), k % 5)
      {
        var j := k - 5 * (count - 1);
        assert log[k] == part[j];
        StagesToEntry(count, productType, start, StageCount, j);
        assert k / 5 == count - 1 && k % 5 == j;
      }
    }
  }

  /** With the two product types, a run's log is the type-1 batch followed by the type-2 batch. */
  lemma RunLogSplit(count: int)
    ensures RunLog(count) == Batch(1, count, 0) + Batch(2, count, BatchTime(1, count))
    ensures RunClock(NumProductTypes, count) == BatchTime(1, count) + BatchTime(2, count)
  {
    assert RunClock(1, count) == BatchTime(1, count);
    assert RunTypes(1, count) == Batch(1, count, 0);
    assert RunTypes(2, count) == RunTypes(1, count) + Batch(2, count, RunClock(1, count));
  }

  /** A run's clock ends 40 minutes per type-1 part plus 48 minutes per type-2 part after 0. */
  lemma RunClockValue(count: int)
    ensures RunClock(NumProductTypes, count) == PartsFed(count) * 880
  {
    RunLogSplit(count);
    BatchTimeValue(1, count);
    BatchTimeValue(2, count);
    PartTimeValue(1);
    PartTimeValue(2);
  }

  /** The type-1 batch of a run, entry by entry: type-1 part k / 5 + 1 enters at minute 40 · (k / 5). */
  lemma FirstBatchEntries(count: int)
    ensures var log := Batch(1, count, 0);
      && |log| == 5 * PartsFed(count)
      && forall k :: 0 <= k < |log| ==> log[k] == Entry(k / 5 + 1, 1, (k / 5) * 400, k % 5)
  {
    assert PartTime(1) == 400 by { PartTimeValue(1); }
    BatchEntries(1, count, 0);
  }

  /**
   * The type-2 batch of a run, entry by entry: it starts once the n type-1
   * parts are done, at minute 40 · n, and type-2 part k / 5 + 1 enters
   * 48 · (k / 5) minutes later.
   */
  lemma SecondBatchEntries(count: int)
    ensures var n := PartsFed(count);
      var log := Batch(2, count, BatchTime(1, count));
      && BatchTime(1, count) == 400 * n
      && |log| == 5 * n
      && forall k :: 0 <= k < |log| ==> log[k] == Entry(k / 5 + 1, 2, 400 * n + (k / 5) * 480, k % 5)
  {
    assert BatchTime(1, count) == 400 * PartsFed(count) by {
      BatchTimeValue(1, count);
      PartTimeValue(1);
    }
    assert PartTime(2) == 480 by { PartTimeValue(2); }
    BatchEntries(2, count, BatchTime(1, count));
  }

  /** Two batches of `n` parts each, of types 1 and 2, laid end to end, entry by entry. */
  lemma TwoBatchesEntries(first: seq<LogEntry>, second: seq<LogEntry>, n: nat)
    requires |first| == 5 * n && |second| == 5 * n
    requires forall k :: 0 <= k < 5 * n ==> second[k] == Entry(k / 5 + 1, 2, 400 * n + (k / 5) * 480, k % 5)
    ensures var log := first + second;
      && |log| == 10 * n
      && (forall k :: 0 <= k < 5 * n ==> log[k] == first[k])
      && (forall k :: 5 * n <= k < 10 * n ==>
           log[k] == Entry((k - 5 * n) / 5 + 1, 2, 400 * n + ((k - 5 * n) / 5) * 480, k % 5))
  {
    var log := first + second;
    forall k | 5 * n <= k < 10 * n
      ensures log[k] == Entry((k - 5 * n) / 5 + 1, 2, 400 * n + ((k - 5 * n) / 5) * 480, k % 5)
    {
      assert log[k] == second[k - 5 * n];
      assert (k - 5 * n) % 5 == k % 5;
    }
  }

  /**
   * The whole log of a run with n parts per type, entry by entry: entry k
   * is the pass through stage k mod 5 of type-1 part k / 5 + 1, which enters
   * at minute 40 · (k / 5), or, from entry 5n on, of type-2 part
   * (k - 5n) / 5 + 1, which enters at minute 40 · n + 48 · ((k - 5n) / 5).
   */
  lemma RunLogEntries(count: int)
    ensures var n := PartsFed(count);
      var log := RunLog(count);
      && |log| == 10 * n
      && (forall k :: 0 <= k < 5 * n ==> log[k] == Entry(k / 5 + 1, 1, (k / 5) * 400, k % 5))
      && (forall k :: 5 * n <= k < 10 * n ==>
           log[k] == Entry((k - 5 * n) / 5 + 1, 2, 400 * n + ((k - 5 * n) / 5) * 480, k % 5))
  {
    var first, second := Batch(1, count, 0), Batch(2, count, BatchTime(1, count));
    FirstBatchEntries(count);
    SecondBatchEntries(count);
    TwoBatchesEntries(first, second, PartsFed(count));
    RunLogSplit(count);
  }

  /**
   * A run with `count` parts per type logs ten entries per part index: first
   * parts 1 .. count of type 1, then parts 1 .. count of type 2, five
   * consecutive entries per part in stage order.
   */
  lemma RunLogShape(count: int)
    ensures var n := PartsFed(count);
      var log := RunLog(count);
      && |log| == 10 * n
      && (forall k :: 0 <= k < 5 * n ==> log[k].productType == 1 && log[k].partId == k / 5 + 1)
      && (forall k :: 5 * n <= k < |log| ==> log[k].productType == 2 && log[k].partId == (k - 5 * n) / 5 + 1)
      && (forall k :: 0 <= k < |log| ==> log[k].stage == StageNames[k % 5])
  {
    RunLogEntries(count);
  }

  /**
   * Once every part of types 1 .. types has been fed, the log is one
   * timeline of the clock from 0 to its reading at that point.
   */
  lemma {:induction false} RunTypesTimeline(types: nat, count: int)
    ensures Timeline(RunTypes(types, count), 0, RunClock(types, count))
  {
    if types > 0 {
      var clock := RunClock(types - 1, count);
      RunTypesTimeline(types - 1, count);
      BatchTimeline(types, count, clock);
      TimelineConcat(RunTypes(types - 1, count), Batch(types, count, clock), 0, clock, clock + BatchTime(types, count));
    }
  }

  /** The log of a run is one timeline of the clock from 0 to the run's final clock reading. */
  lemma RunLogTimeline(count: int)
    ensures Timeline(RunLog(count), 0, RunClock(NumProductTypes, count))
  {
    RunTypesTimeline(NumProductTypes, count);
  }

  /**
   * In the log of a run, every type-1 entry comes before every type-2 entry,
   * within one type part ids never decrease, and no entry starts before an
   * earlier one has finished.
   */
  lemma RunLogOrdered(count: int)
    ensures var log := RunLog(count);
      && (forall a, b :: 0 <= a < b < |log| ==> log[a].productType <= log[b].productType)
      && (forall a, b :: 0 <= a < b < |log| && log[a].productType == log[b].productType ==>
            log[a].partId <= log[b].partId)
      && (forall a, b :: 0 <= a < b < |log| ==> log[a].finishTime <= log[b].startTime)
  {
    RunLogShape(count);
    RunLogTimeline(count);
    TimelineOrdered(RunLog(count), 0, RunClock(NumProductTypes, count));
  }

  /**
   * Feeding part i + 1 of a batch to a line whose log and clock are those
   * of the first i parts leaves the log and clock of the first i + 1.
   */
  lemma FeedStep(productType: int, i: nat, clock: int, done: seq<LogEntry>, log: seq<LogEntry>, time: int)
    requires log == done + Batch(productType, i, clock) && time == clock + BatchTime(productType, i)
    ensures log + PartEntries(i + 1, productType, time) == done + Batch(productType, i + 1, clock)
    ensures time + PartTime(productType) == clock + BatchTime(productType, i + 1)
  {
    var part := PartEntries(i + 1, productType, time);
    assert Batch(productType, i + 1, clock) == Batch(productType, i, clock) + part;
    assert (done + Batch(productType, i, clock)) + part == done + (Batch(productType, i, clock) + part);
  }

  /** Hands one part to the line. */
  method CreatePart(line: ProductionLine, partId: int, productType: int, breakdown: nat -> bool, randomDraw: nat -> nat)
    requires line.Valid()
    modifies line, line.workers
    ensures line.Valid()
    ensures line.logData == old(line.logData) + PartEntries(partId, productType, old(line.currentTime))
    ensures line.currentTime == old(line.currentTime) + PartTime(productType)
    ensures line.workers[..] == old(line.workers[..])
  {
    line.ProcessPart(partId, productType, breakdown, randomDraw);
  }

  /**
   * The inner loop of the driver: hands parts 1 .. count of one type to the
   * line, one after the other.
   */
  method FeedType(line: ProductionLine, productType: int, count: int, breakdown: nat -> bool, randomDraw: nat -> nat)
    requires line.Valid()
    modifies line, line.workers
    ensures line.Valid()
    ensures line.logData == old(line.logData) + Batch(productType, count, old(line.currentTime))
    ensures line.currentTime == old(line.currentTime) + BatchTime(productType, count)
  {
    ghost var done, clock := line.logData, line.currentTime;
    var i := 0;
    while i < count
      invariant 0 <= i && (i <= count || i == 0)
      invariant line.Valid()
      invariant line.logData == done + Batch(productType, i, clock)
      invariant line.currentTime == clock + BatchTime(productType, i)
    {
      FeedStep(productType, i, clock, done, line.logData, line.currentTime);
      CreatePart(line, i + 1, productType, breakdown, randomDraw);
      i := i + 1;
    }
    assert Batch(productType, i, clock) == Batch(productType, count, clock);
  }

  /**
   * Runs the simulation: a fresh line is fed parts 1 .. numPartsPerType of
   * type 1, then of type 2, and the log it has written is returned. The log
   * does not depend on the breakdown and repair oracles.
   */
  method Setup(numPartsPerType: int, breakdown: nat -> bool, randomDraw: nat -> nat) returns (log: seq<LogEntry>)
    ensures log == RunLog(numPartsPerType)
  {
    var line := new ProductionLine();
    for productType := 1 to NumProductTypes + 1
      invariant line.Valid() && fresh(line.workers)
      invariant line.logData == RunTypes(productType - 1, numPartsPerType)
      invariant line.currentTime == RunClock(productType - 1, numPartsPerType)
    {
      FeedType(line, productType, numPartsPerType, breakdown, randomDraw);
    }
    log := line.logData;
  }
}
