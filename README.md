# Production line simulation, modelled in Dafny

This project models the simulator in `simulation.cpp`. A `ProductionLine`
has three pieces of state: an idle-worker counter for each of five stages
(Loading, Machining, Assembling, Inspecting, Packaging), one shared
simulated clock, and an append-only log. `process_part` walks one part
through the five stages in order. At each stage it computes the part's
duration from its product type, takes a worker, advances the clock, gives
the worker back and appends a log entry. The driver `setup` makes one line
and feeds it parts 1 .. n of product type 1, then parts 1 .. n of type 2.

The files:

- `stages.dfy` (module `Stages`): the constants (base times {7, 12, 9, 7, 5}
  minutes, capacities {3, 4, 5, 3, 4}, base repair time 4, two product
  types), the scheduled duration of a stage, a part's total time, and the
  repair-time expression.
- `events.dfy` (module `Events`): `LogEntry`, the `Timeline` predicate (what
  one shared clock writes: each entry finishes at its start plus its
  positive duration, and each entry starts where the previous one
  finished), and the five entries one part writes.
- `production_line.dfy` (module `Line`): class `ProductionLine`. The
  `workers` array, the `currentTime` clock and the `logData` sequence are
  fields that the constructor and `ProcessPart` update in place, and the
  methods' loops carry the invariants.
- `driver.dfy` (module `Driver`): `CreatePart` and `Setup` with the nested
  loop. `RunLog` is the function that specifies the log a run produces, and
  the lemmas about it cover its length, its order and its timing.

Time is counted in tenths of a minute, so all arithmetic is exact. A stage
takes 10 × base ticks for product type 1 and 12 × base ticks for any other
type value, which is the source's `1.0` / `1.2` multiplier. The source's
one-minute `current_time++` would be 10 ticks.

Breakdowns and the repair time they draw only call `sleep_for` in the
source (simulation.cpp:48-52). They never touch `current_time`, the workers
or the log. `ProcessPart` and `Setup` therefore take two oracles:
`breakdown: nat -> bool` and `randomDraw: nat -> nat`, standing in for
`rand()`. Both are indexed by the number of stage passes already logged,
and no postcondition mentions either one. So the log, the clock and the
workers come out the same whatever the oracles answer. A repair does not
advance the clock: `current_time += duration` (simulation.cpp:53) adds only
the scheduled duration. The inline comment at
simulation.cpp:50 says the repair lasts "2-6 minutes". `RepairDuration`
proves that the expression gives 4 to 11 minutes, and `RepairDurationOnto`
proves that every value in that range occurs.

Worker counts. Every capacity is at least 1 (`WorkerCountsPositive`). Each
stage puts back the worker it took before the next stage begins. So every
counter is back at full capacity between stages, which is the loop
invariant `AllIdle`. The `while (workers[i] == 0)` wait is therefore
entered with a non-zero counter and never iterates, so it never moves the
clock. After the decrement and after the increment, the method asserts
that every counter lies in [0, capacity] (`WithinCapacity`).

Integers are unbounded in the model, and the driver's `int` arithmetic
cannot overflow. In simulation.cpp:119-120, `i < num_parts_per_type` and
`num_parts_per_type` is at most `INT_MAX`, so `i + 1` and `++i` stay within
range. The outer counter `product_type` never exceeds 3.

## Model

| member | source | states |
|---|---|---|
| `Stages.Duration` | simulation.cpp:36 | the scheduled duration of every stage, for every product type, is positive |
| `Stages.DurationScaling` | simulation.cpp:36 | type 1 takes exactly the stage's base minutes; any other type value takes exactly 1.2 times the type-1 duration (5·d = 6·d₁) |
| `Stages.PartTimeValue` | simulation.cpp:35-53 | the five stages add up to 40 minutes for type 1 and 48 minutes for any other type |
| `Stages.WorkerCountsPositive` | simulation.cpp:15 | every stage has at least one worker |
| `Stages.RepairDuration` | simulation.cpp:50 | for every non-negative random draw, the repair time lies in [4, 12), that is 4 to 11 minutes (not the 2-6 the comment says); a draw below 8 gives draw + 4 |
| `Stages.RepairDurationOnto` | simulation.cpp:50 | every repair time from 4 to 11 minutes comes from some draw |
| `Events.TimelineConcat` | simulation.cpp:37-61 | two logs written by one clock, the second starting where the first ended, form one log of that clock |
| `Events.TimelineOrdered` | simulation.cpp:37-61 | in a log written by one clock, every entry finishes at start + duration with a positive duration; each entry starts at the previous entry's finish; no entry starts before an earlier one has finished; all entries lie between the clock's two readings |
| `Events.StagesToLayout` | simulation.cpp:32-64 | a part's first k passes are one per stage, in stage order, each with the part's id and type, the stage's name and its scheduled duration |
| `Events.StagesToEntry` | simulation.cpp:35-64 | pass k of a part is exactly its pass through stage k: stage k's name, start at the entry clock plus the earlier stages' scheduled time, stage k's duration, finish at start plus duration |
| `Events.StagesToTimeline` | simulation.cpp:37-61 | a part's first k passes form a timeline from its entry clock to the end of the k-th stage |
| `Events.PartEntriesShape` | simulation.cpp:31-66 | one part writes exactly 5 entries, named Loading, Machining, Assembling, Inspecting, Packaging in that order, each with the given part id and product type and the scheduled duration; they go from the entry clock to 40 (type 1) or 48 (other) minutes later, each starting where the previous one finished |
| `Line.ProductionLine.constructor` | simulation.cpp:24-29 | the clock is 0, `workers[i] == WORKER_COUNTS[i]` for every stage, and the log is empty |
| `Line.ProductionLine.ProcessPart` | simulation.cpp:31-66 | the log becomes the old log followed by exactly the part's five entries, so earlier entries are unchanged; the clock advances by exactly the part's time; every worker count ends equal to its value before the call; the line's invariant (all workers idle, log is the clock's timeline from 0) is kept; breakdowns change nothing. The body also proves that every counter stays within [0, capacity] after the decrement and the increment, and that the wait loop's guard is false |
| `Driver.CreatePart` | simulation.cpp:112-114 | handing a part to the line has exactly the effect of `ProcessPart` |
| `Driver.FeedType` | simulation.cpp:119-121 | the inner loop appends exactly the batch of parts 1 .. n of one type, and advances the clock by n parts' time (nothing for n ≤ 0); the line's invariant is kept |
| `Driver.Setup` | simulation.cpp:116-124 | the log the run leaves equals `RunLog(n)`, whatever the breakdown and random oracles answer |
| `Driver.BatchTimeValue` | simulation.cpp:119-121 | feeding n parts of one type advances the clock by n times one part's time (none for n ≤ 0) |
| `Driver.BatchEntries` | simulation.cpp:119-121 | the inner loop's log holds 5·n entries; entry k is exactly the pass of part k / 5 + 1 through stage k mod 5, that part having entered k / 5 part-times after the batch began |
| `Driver.BatchTimeline` | simulation.cpp:119-121 | the inner loop's log is one timeline from its first clock reading to n parts' time later |
| `Driver.RunLogSplit` | simulation.cpp:118-122 | the run's log is the type-1 batch followed by the type-2 batch, and its clock ends after both batches' time |
| `Driver.RunLogEntries` | simulation.cpp:116-122 | the whole log of `setup(n)`, entry by entry: entry k < 5·n is the pass through stage k mod 5 of type-1 part k / 5 + 1, which entered at minute 40·(k / 5); entry k ≥ 5·n is that of type-2 part (k − 5n) / 5 + 1, which entered at minute 40·n + 48·((k − 5n) / 5) |
| `Driver.RunLogShape` | simulation.cpp:116-122 | `setup(n)` yields 10·n entries (none for n ≤ 0); the first 5·n are type 1, the rest type 2; within each type, part ids go 1 .. n in ascending order with five consecutive entries each; entry k is at stage k mod 5 |
| `Driver.RunClockValue` | simulation.cpp:116-122 | after `setup(n)` the clock reads 88·n minutes |
| `Driver.RunTypesTimeline` | simulation.cpp:118-122 | after the outer loop has run through any number of types, the log is one timeline of the clock from 0 |
| `Driver.RunLogTimeline` | simulation.cpp:116-122 | the run's whole log is one timeline of the clock from 0 |
| `Driver.RunLogOrdered` | simulation.cpp:116-122 | every type-1 entry comes before every type-2 entry; within one type, part ids never decrease; no entry starts before an earlier entry has finished |

## Left out

- `std::this_thread::sleep_for` (simulation.cpp:41, 47, 51): real-time delays of the host thread with no effect on simulated state.
- `print_log_data` and `main` (simulation.cpp:68-88, 126-128): console formatting and output. `Setup` returns the log that would be printed.
- `random_breakdown` with `random_device`/`mt19937`/`uniform_real_distribution`, and `rand()` (simulation.cpp:104-109, 50): foreign random sources, replaced by the `breakdown` and `randomDraw` oracles. `BREAKDOWN_PROB` (0.15) is therefore not modelled.
- `double` times and durations (simulation.cpp:36, 94-96, 102): modelled as exact integer tenths of a minute. The floating-point rounding of values such as 12 × 1.2 is not modelled.
- `SHIFT_LENGTH`, `SIMULATION_DURATION` and `delay_multiplier` (simulation.cpp:16-17, 19): they play no role in simulated state.
- Line.ProductionLine.ProcessPart: the busy-wait `while (workers[i] == 0) { current_time++; }` (simulation.cpp:40-43) is written as the proved assertion that its guard is false on entry, not as a Dafny `while`. A Dafny loop whose body can never run leaves proof obligations that hold only vacuously. The hang that a stage with no idle worker would cause cannot arise and is not modelled.
