/**
 * The fixed configuration of the production line: its five stages, their
 * base processing times and worker capacities, the repair time constant and
 * the number of product types. Simulated time is counted in tenths of a
 * minute, so that the 1.2 multiplier for non-standard products is exact.
 */
module Stages {

  /** Number of stages a part passes through. */
  const StageCount: nat := 5

  /** Stage names, in processing order. */
  const StageNames: seq<string> := ["Loading", "Machining", "Assembling", "Inspecting", "Packaging"]

  /** Base processing time of each stage, in minutes. */
  const ProcessingTimes: seq<nat> := [7, 12, 9, 7, 5]

  /** Number of workers of each stage. */
  const WorkerCounts: seq<nat> := [3, 4, 5, 3, 4]

  /** Base repair time after a breakdown, in minutes. */
  const MaintenanceTime: nat := 4

  /** Product types run by the driver are 1 .. NumProductTypes. */
  const NumProductTypes: nat := 2

  /** Clock units per minute: the clock counts tenths of a minute. */
  const TicksPerMinute: nat := 10

  /** The duration multiplier of a product type, in tenths: 1.0 for type 1, 1.2 for any other value. */
  function MultiplierTenths(productType: int): nat
  {
    if productType == 1 then 10 else 12
  }

  /**
   * Scheduled duration of one stage for one product type, in clock ticks
   * (tenths of a minute): base minutes times the type's multiplier.
   */
  function Duration(stage: nat, productType: int): (d: nat)
    requires stage < StageCount
    ensures d > 0
  {
    ProcessingTimes[stage] * MultiplierTenths(productType)
  }

  /** Type 1 takes exactly the base time; every other type takes exactly 1.2 times it. */
  lemma DurationScaling(stage: nat, productType: int)
    requires stage < StageCount
    ensures Duration(stage, 1) == TicksPerMinute * ProcessingTimes[stage]
    ensures productType != 1 ==> 5 * Duration(stage, productType) == 6 * Duration(stage, 1)
    ensures productType == 1 ==> Duration(stage, productType) == Duration(stage, 1)
  {
  }

  /** Clock ticks consumed by the first `stages` stages, in order. */
  function TimeBefore(productType: int, stages: nat): nat
    requires stages <= StageCount
  {
    if stages == 0 then 0 else TimeBefore(productType, stages - 1) + Duration(stages - 1, productType)
  }

  /** Clock ticks one part of the given type spends on the line. */
  function PartTime(productType: int): nat
  {
    TimeBefore(productType, StageCount)
  }

  /** A part takes 40 minutes if it is of type 1, and 48 minutes otherwise. */
  lemma PartTimeValue(productType: int)
    ensures PartTime(productType) == TicksPerMinute * (if productType == 1 then 40 else 48)
  {
    assert TimeBefore(productType, 1) == Duration(0, productType);
    assert TimeBefore(productType, 3) == TimeBefore(productType, 1) + Duration(1, productType) + Duration(2, productType);
    assert TimeBefore(productType, 5) == TimeBefore(productType, 3) + Duration(3, productType) + Duration(4, productType);
  }

  /** Every stage has at least one worker, so a stage whose workers are all idle can always take a part. */
  lemma WorkerCountsPositive(stage: nat)
    requires stage < StageCount
    ensures WorkerCounts[stage] >= 1
  {
  }

  /**
   * Repair time drawn after a breakdown, in minutes, from a non-negative
   * draw of the C library's random generator: draw mod twice the base repair
   * time, plus the base repair time.
   */
  function RepairDuration(draw: nat): (minutes: nat)
    ensures MaintenanceTime <= minutes < 3 * MaintenanceTime
    ensures draw < 2 * MaintenanceTime ==> minutes == draw + MaintenanceTime
  {
    draw % (MaintenanceTime * 2) + MaintenanceTime
  }

  /** Every value from the base repair time up to three times it, exclusive, is drawn by some draw. */
  lemma RepairDurationOnto(minutes: nat)
    requires MaintenanceTime <= minutes < 3 * MaintenanceTime
    ensures RepairDuration(minutes - MaintenanceTime) == minutes
  {
  }
}
