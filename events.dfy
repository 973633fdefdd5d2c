/**
 * The production log: one entry per stage a part has passed, and the
 * properties a log written by a single shared clock has.
 */
module Events {
  import opened Stages

  /**
   * One part's pass through one stage. Times and the duration are clock
   * ticks (tenths of a minute); `duration` is the scheduled stage time.
   */
  datatype LogEntry = LogEntry(
    partId: int,
    stage: string,
    startTime: int,
    finishTime: int,
    duration: int,
    productType: int)

  /**
   * `log` is what one clock running from `from` to `to` writes: each entry
   * lasts a positive duration and finishes at its start plus that duration,
   * the first starts at `from`, each next one starts where the previous one
   * finished, and the last finishes at `to`.
   */
  predicate Timeline(log: seq<LogEntry>, from: int, to: int)
    decreases |log|
  {
    if log == [] then from == to
    else
      && log[0].startTime == from
      && log[0].duration > 0
      && log[0].finishTime == log[0].startTime + log[0].duration
      && Timeline(log[1..], log[0].finishTime, to)
  }

  /** Two timelines that meet form one timeline. */
  lemma {:induction false} TimelineConcat(a: seq<LogEntry>, b: seq<LogEntry>, t0: int, t1: int, t2: int)
    requires Timeline(a, t0, t1) && Timeline(b, t1, t2)
    ensures Timeline(a + b, t0, t2)
    decreases |a|
  {
    if a != [] {
      assert (a + b)[0] == a[0];
      assert (a + b)[1..] == a[1..] + b;
      TimelineConcat(a[1..], b, a[0].finishTime, t1, t2);
    } else {
      assert a + b == b;
    }
  }

  /** Two timelines that meet form one timeline, for a log known to be their concatenation. */
  lemma TimelineJoin(a: seq<LogEntry>, b: seq<LogEntry>, whole: seq<LogEntry>, t0: int, t1: int, t2: int)
    requires Timeline(a, t0, t1) && Timeline(b, t1, t2) && whole == a + b
    ensures Timeline(whole, t0, t2)
  {
    TimelineConcat(a, b, t0, t1, t2);
  }

  /**
   * In a timeline every entry finishes at its start plus its positive
   * duration, each entry starts exactly when the previous one finished,
   * no entry starts before a previous one has finished, and all of them lie
   * between the two ends of the clock.
   */
  lemma {:induction false} TimelineOrdered(log: seq<LogEntry>, from: int, to: int)
    requires Timeline(log, from, to)
    ensures from <= to
    ensures forall k :: 0 <= k < |log| ==> log[k].duration > 0 && log[k].finishTime == log[k].startTime + log[k].duration
    ensures forall k :: 0 <= k < |log| ==> from <= log[k].startTime < log[k].finishTime <= to
    ensures forall k :: 0 < k < |log| ==> log[k].startTime == log[k - 1].finishTime
    ensures forall a, b :: 0 <= a < b < |log| ==> log[a].finishTime <= log[b].startTime
    ensures log != [] ==> log[0].startTime == from && log[|log| - 1].finishTime == to
    decreases |log|
  {
    if log != [] {
      var rest := log[1..];
      TimelineOrdered(rest, log[0].finishTime, to);
      assert forall k :: 0 < k < |log| ==> log[k] == rest[k - 1];
    }
  }

  /**
   * The pass of a part entering the line at `clock` through stage `stage`:
   * it starts once the earlier stages' scheduled time has elapsed and lasts
   * the stage's scheduled duration.
   */
  function Entry(partId: int, productType: int, clock: int, stage: nat): LogEntry
    requires stage < StageCount
  {
    LogEntry(partId, StageNames[stage],
      clock + TimeBefore(productType, stage), clock + TimeBefore(productType, stage + 1),
      Duration(stage, productType), productType)
  }

  /** The passes of a part entering the line at `clock` through its first `stages` stages. */
  function StagesTo(partId: int, productType: int, clock: int, stages: nat): seq<LogEntry>
    requires stages <= StageCount
  {
    if stages == 0 then [] else StagesTo(partId, productType, clock, stages - 1) + [Entry(partId, productType, clock, stages - 1)]
  }

  /** The five entries one part writes when it enters the line at `clock`. */
  function PartEntries(partId: int, productType: int, clock: int): seq<LogEntry>
  {
    StagesTo(partId, productType, clock, StageCount)
  }

  /**
   * The first `stages` passes of a part are one per stage, in stage order,
   * each with the part's id and type and the stage's name and scheduled
   * duration.
   */
  lemma {:induction false} StagesToLayout(partId: int, productType: int, clock: int, stages: nat)
    requires stages <= StageCount
    ensures var log := StagesTo(partId, productType, clock, stages);
      && |log| == stages
      && (forall k :: 0 <= k < stages ==>
           && log[k].partId == partId
           && log[k].productType == productType
           && log[k].stage == StageNames[k]
           && log[k].duration == Duration(k, productType))
  {
    if stages > 0 {
      StagesToLayout(partId, productType, clock, stages - 1);
    }
  }

  /** Pass k of a part is its pass through stage k. */
  lemma {:induction false} StagesToEntry(partId: int, productType: int, clock: int, stages: nat, k: nat)
    requires k < stages <= StageCount
    ensures |StagesTo(partId, productType, clock, stages)| == stages
    ensures StagesTo(partId, productType, clock, stages)[k] == Entry(partId, productType, clock, k)
  {
    StagesToLayout(partId, productType, clock, stages);
    if k < stages - 1 {
      StagesToEntry(partId, productType, clock, stages - 1, k);
    }
  }

  /** The first `stages` passes of a part form a timeline from the entry clock to the end of the last of them. */
  lemma {:induction false} StagesToTimeline(partId: int, productType: int, clock: int, stages: nat)
    requires stages <= StageCount
    ensures Timeline(StagesTo(partId, productType, clock, stages), clock, clock + TimeBefore(productType, stages))
  {
    if stages > 0 {
      var prefix := StagesTo(partId, productType, clock, stages - 1);
      var last := Entry(partId, productType, clock, stages - 1);
      var t0, t1 := clock + TimeBefore(productType, stages - 1), clock + TimeBefore(productType, stages);
      assert Timeline(prefix, clock, t0) by { StagesToTimeline(partId, productType, clock, stages - 1); }
      assert Timeline([last], t0, t1);
      TimelineJoin(prefix, [last], StagesTo(partId, productType, clock, stages), clock, t0, t1);
    }
  }

  /**
   * One part writes exactly five entries, Loading, Machining, Assembling,
   * Inspecting and Packaging in that order, each with the part's id and
   * type and the stage's scheduled duration; together they form a timeline
   * from the entry clock to 40 minutes later for type 1 and 48 minutes later
   * for any other type.
   */
  lemma PartEntriesShape(partId: int, productType: int, clock: int)
    ensures var log := PartEntries(partId, productType, clock);
      && |log| == 5
      && log[0].stage == "Loading"
      && log[1].stage == "Machining"
      && log[2].stage == "Assembling"
      && log[3].stage == "Inspecting"
      && log[4].stage == "Packaging"
      && (forall k :: 0 <= k < 5 ==> log[k].partId == partId && log[k].productType == productType)
      && (forall k :: 0 <= k < 5 ==> log[k].duration == Duration(k, productType))
      && Timeline(log, clock, clock + PartTime(productType))
      && PartTime(productType) == (if productType == 1 then 400 else 480)
  {
    StagesToLayout(partId, productType, clock, StageCount);
    StagesToTimeline(partId, productType, clock, StageCount);
    PartTimeValue(productType);
  }
}
