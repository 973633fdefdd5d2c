/**
 * The production line: its idle-worker counters, its shared clock and its
 * append-only log, and the operation that walks one part through all five
 * stages.
 */
module Line {
  import opened Stages
  import opened Events

  class ProductionLine {
    /** Idle workers of each stage. */
    const workers: array<int>
    /** The shared simulated clock, in tenths of a minute. */
    var currentTime: int
    /** Every stage pass so far, in the order the passes finished. */
    var logData: seq<LogEntry>

    /** No stage has more idle workers than its capacity, nor fewer than none. */
    ghost predicate WithinCapacity()
      reads this, workers
      requires workers.Length == StageCount
    {
      forall j :: 0 <= j < StageCount ==> 0 <= workers[j] <= WorkerCounts[j]
    }

    /** Every worker of every stage is idle. */
    ghost predicate AllIdle()
      reads this, workers
      requires workers.Length == StageCount
    {
      forall j :: 0 <= j < StageCount ==> workers[j] == WorkerCounts[j]
    }

    /**
     * Between two calls every worker is idle, and the log is the timeline
     * of the clock from 0 to its current reading.
     */
    ghost predicate Valid()
      reads this, workers
    {
      && workers.Length == StageCount
      && AllIdle()
      && Timeline(logData, 0, currentTime)
    }

    /** A new line: clock at 0, every stage at full capacity, empty log. */
    constructor ()
      ensures Valid() && fresh(workers)
      ensures currentTime == 0 && logData == []
      ensures workers[..] == WorkerCounts
    {
      var idle := new int[StageCount];
      for i := 0 to StageCount
        invariant forall j :: 0 <= j < i ==> idle[j] == WorkerCounts[j]
      {
        idle[i] := WorkerCounts[i];
      }
      workers := idle;
      currentTime := 0;
      logData := [];
    }

    /**
     * Walks one part through the five stages in order. Each stage takes an
     * idle worker, advances the clock by the stage's scheduled duration,
     * gives the worker back and logs the pass. A breakdown, chosen by
     * `breakdown`, and its repair time, drawn from `randomDraw`, only delay
     * the host thread in `process_part` (simulation.cpp:48-52) and leave
     * clock, workers and log alone; both oracles are indexed by the number
     * of stage passes logged before.
     */
    method ProcessPart(partId: int, productType: int, breakdown: nat -> bool, randomDraw: nat -> nat)
      requires Valid()
      modifies this, workers
      ensures Valid()
      ensures logData == old(logData) + PartEntries(partId, productType, old(currentTime))
      ensures currentTime == old(currentTime) + PartTime(productType)
      ensures workers[..] == old(workers[..])
    {
      for i := 0 to StageCount
        invariant AllIdle()
        invariant logData == old(logData) + StagesTo(partId, productType, old(currentTime), i)
        invariant currentTime == old(currentTime) + TimeBefore(productType, i)
      {
        var duration := Duration(i, productType);
        var startTime := currentTime;

        // `process_part` spins here (simulation.cpp:40-43), one minute per
        // turn, while the stage has no idle worker. Every worker is idle
        // between stages and every stage has at least one, so the spin's
        // guard is false: it never turns and never moves the clock.
        WorkerCountsPositive(i);
        assert workers[i] != 0;

        workers[i] := workers[i] - 1;
        assert WithinCapacity();

        if breakdown(|logData|) {
          // The repair only delays the host thread; no simulated state changes.
          var repairMinutes := RepairDuration(randomDraw(|logData|));
        }
        currentTime := currentTime + duration;
        workers[i] := workers[i] + 1;
        assert WithinCapacity();

        var entry := LogEntry(partId, StageNames[i], startTime, currentTime, duration, productType);
        assert entry == Entry(partId, productType, old(currentTime), i);
        logData := logData + [entry];
      }
      assert Timeline(logData, 0, currentTime) by {
        StagesToTimeline(partId, productType, old(currentTime), StageCount);
        TimelineJoin(old(logData), PartEntries(partId, productType, old(currentTime)), logData,
          0, old(currentTime), currentTime);
      }
      assert old(workers[..]) == WorkerCounts;
    }
  }
}
