# CPU scheduling simulator, modelled in Dafny

This project models the scheduling core of a small Python CPU-scheduling
simulator (`code.py`). The simulator takes a list of process records and
fills in each process's waiting time and turnaround time under five
disciplines:

- first come first served (FCFS);
- shortest job first (SJF);
- longest job first (LJF);
- priority scheduling;
- Round-Robin with a fixed time quantum.

It also models how the analysed processes are picked from a numbered list
by their serial numbers.

The Python program mutates its process objects in place. The model follows
that shape:

- a process is a value (`Processes.Process`);
- the process list is an `array<Process>`;
- each discipline is a `method` that rewrites the array;
- each method is proved equal to a reference function on sequences, and the
  scheduling properties are proved about those functions as lemmas.

Modules:

- `Processes` (`processes.dfy`): the process record, its descriptor (the
  record with both results cleared), and the sum of bursts.
- `Accumulation` (`accumulation.dfy`): the back-to-back accumulation pass that
  all batch disciplines end with. Its reference definition is a prefix sum of
  bursts (`Accumulated`). It has an independent neighbour characterisation
  (`BackToBack`), and the two are proved equivalent.
- `Sorting` (`sorting.dfy`): the stable list sort, including the descending
  sort. Its reference is a functional insertion sort `SortBy`, proved to be a
  sorted, stable permutation. An in-place insertion sort on the array is
  proved equal to it.
- `Batch` (`batch.dfy`): FCFS, SJF, LJF and priority scheduling. Each is a
  sort followed by the accumulation pass. The priorities that the program
  reads interactively are a parameter here.
- `RoundRobin` (`roundrobin.dfy`): the Round-Robin rotation.
  - The state is a FIFO queue of list positions, the unserved time per
    position, and a clock.
  - A turn is a function `Step`, and the run is a function `Run`. Run ends
    because the unserved total falls or the queue shrinks.
  - The in-place method with its queue, array and clock is proved to compute
    `Run` followed by the block after the loop.
  - A seven-state trace for bursts 5, 2, 8 and quantum 3 is proved.
- `Selection` (`selection.dfy`): selection by serial number, in two versions.
  One is as written, including the list lookup's acceptance of negative
  indices. The other is as intended.
- `IdentityLookup` (`identity.dfy`): the Round-Robin loop body with the
  program's lookup of a popped process by object identity. It shows that
  this lookup agrees with positions, turn by turn, when every object is
  distinct, and exhibits a run that fails when one object with a positive
  burst is selected twice.

For bursts [5, 2, 8] and quantum 3 the code completes:

- P2 at 5 (waiting 3);
- P1 at 10 (waiting 5);
- P3 at 15 (waiting 7).

`RoundRobin.RoundRobinTrace` proves these figures.

## Model

| member | source | states |
|---|---|---|
| Processes.NewProcess | code.py:13-22 | a new process carries the given pid, name, burst and priority, and both results start at zero |
| Accumulation.CalculateWaitingTurnaroundTimes | code.py:24-29 | after the pass, the array is the prefix-sum schedule of its old contents: process k waits the sum of the bursts before it and turns around at that sum plus its own burst; nothing else changes |
| Accumulation.AccumulatedIsBackToBack | code.py:24-29 | the pass makes the first process wait 0, each later process wait exactly until its predecessor turns around, and every turnaround equal to waiting plus burst; only the two results change |
| Accumulation.BackToBackIsAccumulated | code.py:24-29 | conversely, any list that runs back to back in this sense is the result of the pass, so the neighbour description determines the results |
| Accumulation.AccumulatedInOrder | code.py:24-29 | in list order, an earlier process turns around no later than a later one starts waiting |
| Accumulation.AccumulatedMakespan | code.py:24-29 | the last process turns around at the total of all bursts |
| Sorting.SortInPlace | code.py:59 | the in-place sort leaves the array equal to the stable sort of its old contents by the given key |
| Sorting.InsertAt | code.py:59 | one insertion step: the element at i moves left past every element that must follow it, and the prefix becomes the insertion of that element into the old prefix; elements beyond i are untouched |
| Sorting.SortByPermutes | code.py:59 | sorting returns a permutation of its input (equal multisets) |
| Sorting.SortBySorted | code.py:59 | sorting returns a list ordered by the key: ascending (burst, priority) for SJF, descending (burst, priority) for LJF, ascending (priority, burst) for priority scheduling |
| Sorting.SortByStable | code.py:63 | sorting is stable, also in reverse: processes with equal burst and priority keep their relative order |
| Batch.FcfsScheduling | code.py:55-56 | FCFS keeps the list order and applies the accumulation pass |
| Batch.SjfScheduling | code.py:58-60 | SJF leaves the array as the stable ascending sort by (burst, priority), accumulated |
| Batch.LjfScheduling | code.py:62-64 | LJF leaves the array as the stable descending sort by (burst, priority), accumulated |
| Batch.PriorityQueueScheduling | code.py:66-71 | priority scheduling first gives each process the priority supplied for its position, then leaves the array as the stable ascending sort by (priority, burst), accumulated |
| Batch.BatchSchedule | code.py:58-71 | with both results cleared, a batch schedule is the sorted input, so it is a permutation with every burst and priority unchanged; it is sorted by the key; it runs back to back; and a process whose key is strictly smaller sits earlier and turns around no later than the other starts waiting |
| Batch.SmallerKeyRunsFirst | code.py:58-71 | under every batch key, a process whose key is strictly smaller sits earlier in the list and turns around no later than the other starts waiting |
| Batch.ShorterJobRunsFirst | code.py:58-60 | under SJF, a job with a shorter burst finishes no later than a longer one starts |
| Batch.LongerJobRunsFirst | code.py:62-64 | under LJF, a job with a longer burst finishes no later than a shorter one starts |
| Batch.LowerPriorityNumberRunsFirst | code.py:66-71 | under priority scheduling, a lower priority number finishes no later than a higher one starts |
| Batch.PrioritiesAssigned | code.py:67-68 | the priorities the list carries afterwards are exactly the supplied ones (as a multiset) |
| RoundRobin.Initial | code.py:74-76 | before the first turn every position is queued in list order, each is owed its whole burst, the clock is 0, the list is the input and nothing has completed |
| RoundRobin.InitialQueueInv | code.py:74-76 | the queue invariant holds before the first turn |
| RoundRobin.InitialInv | code.py:74-76 | the full invariant holds before the first turn: nothing is served yet, so time is conserved, every position is queued and none completed |
| RoundRobin.Step | code.py:79-90 | one turn: no entry of unserved time grows, the clock plus the unserved total is conserved, the clock advances by at most one quantum, and either the queue shrinks or the clock advances by a full quantum |
| RoundRobin.QueueNonEmpty | code.py:78-79 | while some process is still owed time, the queue is not empty, so the pop never fails |
| RoundRobin.StepKeepsQueueInv | code.py:79-90 | a turn keeps the queue invariant: positions are valid and queued once, and every process owed time is queued |
| RoundRobin.Run | code.py:78-90 | for a positive quantum the rotation terminates, in a state that keeps the queue invariant and owes nobody any time |
| RoundRobin.StepKeepsInv | code.py:79-90 | a turn keeps the full invariant: time is conserved; nobody is owed more than their burst; each position is queued or completed but not both; completed processes are owed nothing and carry turnaround between their burst and the clock, with waiting equal to turnaround less burst; the rest are untouched; completion times never decrease |
| RoundRobin.RunKeepsInv | code.py:78-90 | the rotation, started from a state that satisfies the invariant, ends in a state that satisfies it |
| RoundRobin.Drain | code.py:92-96 | the block after the loop: in list order, each process still owed time gets waiting = clock plus everything owed to the owed processes before it, and turnaround = that plus its own unserved time; every other process is left as it is |
| RoundRobin.DrainIsNoOp | code.py:92-96 | when nobody is owed time, the block after the loop changes nothing |
| RoundRobin.NothingLeftToDrain | code.py:92-96 | the Round-Robin result is the list as the rotation left it |
| RoundRobin.RoundRobinOutcome | code.py:73-96 | the clock ends at the total of all bursts; the list keeps its order and every descriptor; every process with a positive burst completes, with burst ≤ turnaround ≤ total and waiting = turnaround − burst; completion times never decrease in completion order; a process that never completes (burst 0) keeps the results it had |
| RoundRobin.RoundRobinTrace | code.py:73-96 | bursts 5, 2, 8 with quantum 3 pass through the seven states of `TraceState` (roundrobin.dfy) and end with completion order P2, P1, P3 at clocks 5, 10 and 15 (waiting 3, 5 and 7) |
| RoundRobin.RoundRobinScheduling | code.py:73-96 | the in-place rotation (queue, unserved-time array and clock, then the block after the loop) leaves the array equal to the Round-Robin reference result (`RoundRobinResult`) of its old contents |
| RoundRobin.Turn | code.py:79-90 | one pass of the loop body on the arrays is exactly one turn of the reference rotation |
| RoundRobin.FinishUnserved | code.py:92-96 | the block after the loop on the array computes the reference post-loop block |
| Selection.Position | code.py:52 | Python's list index: a non-negative index i reads position i, a negative index i reads position n + i counted from the end, and the result is always a valid position |
| Selection.GetProcessesBySno | code.py:51-53 | as written: the selection succeeds iff every serial s has s − 1 accepted as a list index (counting from the end when negative); element k is the process at that index; otherwise the first rejected serial is reported |
| Selection.SelectBySerial | code.py:51-53 | as intended: the selection succeeds iff every serial is between 1 and the list length, element k is the process whose serial number is the k-th one selected, and otherwise the first out-of-range serial is reported |
| Selection.SelectionsAgree | code.py:51-53 | on serials between 1 and the list length, the two selections agree |
| Selection.SerialZeroPicksLast | code.py:52 | serial 0 is accepted by the code as written and picks the last process, while the intended selection rejects it |
| IdentityLookup.FirstIndex | code.py:80 | the list lookup by identity: the result holds the object, and no earlier position does, so the first occurrence is returned |
| IdentityLookup.TurnByIdentity | code.py:79-90 | a pass of the loop body with the identity lookup fails (pop from an empty queue) exactly when the queue is empty |
| IdentityLookup.DistinctIdentityIsPositional | code.py:76-90 | when every object in the list is distinct, a pass with the identity lookup is exactly one positional turn |
| IdentityLookup.DuplicateObjectEmptiesQueue | code.py:78-90 | one object (id 7) at two positions, each owed 1 unit, quantum 1: both passes serve position 0, the queue runs empty while position 1 is still owed time, and the next pop fails |

## Left out

- Reading live operating-system processes (code.py:31-39) is not modelled. It needs process introspection and the wall clock.
- Table display (code.py:41-49, 98-105) is not modelled; it only prints.
- The interactive driver (code.py:122-158) is not modelled. It reads standard input and sequences the calls.
- Priority scheduling reads its priorities from standard input (code.py:68). Here they are a parameter, and a value that does not parse as an integer is not modelled.
- `rank_algorithms` (code.py:107-118) is not modelled. It mixes floating-point CPU percentages with a foreign memory-size field, does not depend on the algorithm, and divides by zero on an empty list.
- The CPU-usage and memory fields of a process are not modelled; nothing in the core reads them.
- Durations are naturals. In the source, bursts are floating-point seconds of process age; the scheduling logic does not depend on floating-point behaviour.
- RoundRobin.RoundRobinScheduling: requires a positive quantum. The code has no check; with a quantum of 0 or less its loop never ends when some burst is positive. When no burst is positive (including the empty list) the code returns without changing anything whatever the quantum, and the precondition excludes that terminating case too. The quantum is a natural number, so negative quanta are not represented.
- A multilevel-queue discipline and a configuration-error path do not exist in the code and are not modelled.
- The process list holds objects, and the disciplines update them through shared references. The model uses values in an array. So aliasing between list positions is not captured, except in `IdentityLookup`, which models the identity lookup of the Round-Robin loop.
- RoundRobin.RoundRobinScheduling: positions are used instead of the identity lookup. The two agree turn by turn when no object is in the list twice (IdentityLookup.DistinctIdentityIsPositional); the converse, and agreement over a whole run, are not proved.
- The program runs all five disciplines one after another on the same list. Each discipline is modelled on its own, from whatever list it is given.

## Findings

| source | as written | input that shows it | evidently intended | confidence | as-written member | corrected member |
|---|---|---|---|---|---|---|
| code.py:52 | serial s reads list index s − 1, and the list lookup also accepts negative indices | serial 0 on a non-empty list picks the last process; serial −1 picks the one before it | only the serials on display, 1 to the list length, are accepted | not executed | Selection.SerialZeroPicksLast | Selection.SelectBySerial |
| code.py:80 | a popped process is located with a list lookup by object identity, which returns the first position holding that object | the same serial selected twice, burst 1, quantum 1: both turns update position 0, the queue empties while position 1 is still owed time, and the next pop fails | each turn serves the position that was queued | not executed | IdentityLookup.DuplicateObjectEmptiesQueue | RoundRobin.RoundRobinScheduling |
