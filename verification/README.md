# CPU scheduling simulator, modelled in Dafny

The simulator takes a set of processes, each with an id, an arrival time and
a service time. It runs one of four CPU scheduling policies over them:

- HRRN: highest response ratio next, non-preemptive.
- RR: round robin with a quantum.
- STRF: shortest remaining time first, preemptive.
- MLFQ: three FIFO tiers with demotion.

The result is a Gantt trace: a list of (pid, duration) intervals, where pid
-1 marks an idle gap. Finish, turnaround and waiting times, and their
averages, are derived from the trace.

## The model

The project models the discrete-event loop, the four bursts, the Gantt trace
builder, the metrics and the process record.

**Process record** (`processes.dfy`, module `Processes`).
- Equality, hash and ordering of a process depend on its id only.
- `WellFormedInput` states what the input layer guarantees: the i-th process
  has id i, and no service time is negative.

**Gantt trace** (`timeline.dfy`, module `Timeline`; `decimal.dfy`, module `Decimal`).
- `Gantt` is a class whose `entries` field `Add` updates in place.
- `Added` is the function that specifies `Add`: it drops a zero-length
  interval, merges an interval into the last one when their pids are equal,
  and appends it otherwise.
- The lemmas show that adding keeps the trace well formed: no zero-length
  interval, and no two neighbouring intervals with the same pid. They also
  show that it adds exactly its duration to the total and to its pid's busy
  time.
- `ToString` builds the printed form with a running clock. It is proved equal
  to `Rendered`, which is specified with prefix sums.
- `Decimal` is how the trace prints integers. It is proved to round-trip
  through parsing.

**Arrival queue** (`arrivals.dfy`, module `Arrivals`). The source's priority
queue is modelled as a sequence sorted by (arrival time, id). `Insert` is
proved to keep the queue sorted and to add exactly one element.
`ArrivedCount`, `Arrived` and `StillToArrive` describe what
`addArrivedProcesses` takes out and what it leaves behind.

**Ready queues** (`ready_queues.dfy`, module `ReadyQueues`).
- A ready entry is either an RR, STRF or MLFQ entry (id and remaining time)
  or an HRRN entry (id, waiting time and service time).
- `IndexOfShortest` and `IndexOfHighestRatio` are the priority queues'
  `remove()`. Each is a loop proved to return the least element under the
  source's comparator.
- The HRRN comparator compares waiting/service ratios by
  cross-multiplication. `RatioCrossMultiplication` proves that this agrees
  with comparing the real ratios.

**Loop state** (`scheduling.dfy`, module `Scheduling`).
- `Scheduler` is one class for the four subclasses of `AbstractSched`. A
  `Policy` value tags which subclass it is, and holds the quanta.
- Its fields are the clock, the arrival queue, the ready queues and the trace.
- `AddArrivedProcesses`, the bursts and `Schedule` are methods with loops
  that update these fields, and `JumpToNextArrivalTime` updates them without
  a loop. Each is proved against a function of the old state, defined in
  `steps.dfy`.
- `Burst` is proved against `Steps.NextRun`, the burst of each policy as a
  function of the queues and the clock. `Steps.Selected` says which entry
  runs: the highest ratio, the least remaining time, or the head of the queue,
  for MLFQ from its first non-empty tier.
- The constructor needs at least one process, as the source's
  `PriorityQueue` does. For an empty process set the entry points return no
  trace.

**Loop invariant** (`steps.dfy`, module `Steps`; `ledger.dfy`, module `Ledger`).
- Every step keeps the loop's invariant: the clock equals the trace's total
  time, and the trace is well formed.
- The queues hold only processes that have arrived and still need work.
- For every process, the time the trace gives it plus the work the queues
  still owe it equals its service time.
- Every step lowers the pair (work owed, pending arrivals).

From these, `Schedule` is proved to stop with every queue empty. Every process
has then run for exactly its service time, and none finished before its
arrival plus its service time. The trace names only input processes and idle
gaps and does not end idle, so its total time is the latest finish time.

**Metrics** (`metrics.dfy`, module `Metrics`).
- `FinishTimes` is the loop over the trace that keeps a mutable map. It is
  proved equal to `FinishMap`, a map from each input id to the end of its last
  interval.
- Turnaround and waiting times are sequences indexed by id. Averages are
  exact reals, with `NotANumber` for an empty set.
- On a finished run, a process with work has a non-negative waiting time, and
  a turnaround of at least its service time.
- Zero-service processes are counted the way the code counts them: they
  finish at 0 and have turnaround minus their arrival time. They are also
  included in the averages.

## Model

| member | source | states |
|---|---|---|
| Processes.Equals | app/src/main/kotlin/sched/Process.kt:9 | two processes are equal exactly when they differ at most in arrival and service time |
| Processes.HashCode | app/src/main/kotlin/sched/Process.kt:8-9 | the hash is the id of every process equal to this one, so equal processes hash alike |
| Processes.CompareTo | app/src/main/kotlin/sched/Process.kt:11 | the result is -1, 0 or 1 with the sign of the id comparison, and 0 exactly when the processes are equal |
| Processes.HashRespectsEquals | app/src/main/kotlin/sched/Process.kt:8-9 | processes that are equal have the same hash code |
| Processes.CompareToAntisymmetric | app/src/main/kotlin/sched/Process.kt:9-11 | swapping the arguments negates the comparison, and the comparison is 0 exactly when `equals` holds, so the ordering is consistent with equality |
| Decimal.DigitChar | app/src/main/kotlin/sched/Gantt.kt:31 | the character for a digit is a digit character with that value |
| Decimal.NatToString | app/src/main/kotlin/sched/Gantt.kt:31 | a natural prints as a non-empty string of digits with no leading zero |
| Decimal.IntToString | app/src/main/kotlin/sched/Gantt.kt:33 | an integer prints as a non-empty string that starts with '-' exactly when it is negative |
| Decimal.NatToStringRoundTrip | app/src/main/kotlin/sched/Gantt.kt:31 | reading the printed digits back gives the natural that was printed |
| Decimal.IntToStringRoundTrip | app/src/main/kotlin/sched/Gantt.kt:33 | parsing a printed integer gives that integer back |
| Timeline.Added | app/src/main/kotlin/sched/Gantt.kt:12-18 | a zero-length interval leaves the trace as it was; otherwise the trace ends with the interval's pid, grows by at most one entry, and every entry before the old last one is kept |
| Timeline.AddedTotal | app/src/main/kotlin/sched/Gantt.kt:12-18 | adding an interval grows the total time by exactly its duration, and a well-formed trace stays well formed for a non-negative duration |
| Timeline.MergedWellFormed | app/src/main/kotlin/sched/Gantt.kt:14-16 | replacing the last interval with one of the same pid and the summed time keeps the trace well formed |
| Timeline.AppendedWellFormed | app/src/main/kotlin/sched/Gantt.kt:17 | appending a non-empty interval whose pid differs from the last one keeps the trace well formed |
| Timeline.AddedAttribution | app/src/main/kotlin/sched/Gantt.kt:12-18 | adding an interval adds its duration to its pid's busy time and to no other pid's. The pid's finish becomes the new end of the trace, unless the interval is empty |
| Timeline.AddedPids | app/src/main/kotlin/sched/Gantt.kt:12-18 | adding an idle interval or one of an input process keeps every interval's pid idle or an input id; a non-empty interval leaves the trace ending with its pid, and an empty one leaves the trace unchanged |
| Timeline.FinishWithinTotal | app/src/main/kotlin/sched/Metrics.kt:15-19 | a process's finish time lies between 0 and the end of the trace |
| Timeline.TotalNonNegative | app/src/main/kotlin/sched/Gantt.kt:12-18 | a trace of non-negative intervals has a non-negative total time |
| Timeline.FinishOfLastInterval | app/src/main/kotlin/sched/Metrics.kt:16-19 | a pid's finish time is the prefix sum up to and including its last interval |
| Timeline.FinishOfAbsent | app/src/main/kotlin/sched/Metrics.kt:13-19 | a pid that never appears keeps finish time 0 and busy time 0 |
| Timeline.PiecesStep | app/src/main/kotlin/sched/Gantt.kt:30-36 | printing one more interval appends its piece, stamped with the sum of the earlier durations |
| Timeline.FirstPieceExample | app/src/main/kotlin/sched/Gantt.kt:30-36 | a one-interval trace prints the piece "(0) P2 " |
| Timeline.PiecesPrefixExample | app/src/main/kotlin/sched/Gantt.kt:30-36 | two intervals print "(0) P2 (4) Idle ", with idle printed as `Idle` |
| Timeline.PiecesExample | app/src/main/kotlin/sched/Gantt.kt:30-36 | three intervals print each one after the time it starts at |
| Timeline.RenderedExample | app/src/main/kotlin/sched/Gantt.kt:26-40 | the trace P2 for 4, idle for 3, P1 for 3 prints as "(0) P2 (4) Idle (7) P1 (10)" |
| Timeline.Gantt.constructor | app/src/main/kotlin/sched/Gantt.kt:4 | a new trace is empty |
| Timeline.Gantt.Add | app/src/main/kotlin/sched/Gantt.kt:6-18 | the new entries are the old ones with the interval dropped, merged into the last one, or appended |
| Timeline.Label | app/src/main/kotlin/sched/Gantt.kt:32-33 | the label is "Idle" exactly for pid -1; any other pid prints as 'P' followed by digits that read back as that pid |
| Timeline.Gantt.ToString | app/src/main/kotlin/sched/Gantt.kt:26-40 | the string the loop builds is the rendering: every interval after its start time, then the final stamp |
| Arrivals.ArrivalBefore | app/src/main/kotlin/sched/Sched.kt:11-12 | different arrival times decide by the earlier one; equal arrival times decide by the id comparison of `Process.compareTo` |
| Arrivals.Insert | app/src/main/kotlin/sched/Sched.kt:11-13 | inserting into a sorted arrival queue keeps it sorted by (arrival, id) and adds exactly that process |
| Arrivals.PrependSorted | app/src/main/kotlin/sched/Sched.kt:11-12 | a process that precedes the head can go in front of a sorted queue |
| Arrivals.InsertedAfterHead | app/src/main/kotlin/sched/Sched.kt:11-12 | when the new process does not precede the head, the head still precedes everything after it |
| Arrivals.ArrivedCount | app/src/main/kotlin/sched/Sched.kt:16-20 | the processes the admission loop takes out have all arrived by the current time, and the first one it leaves has not |
| Arrivals.ArrivalSplit | app/src/main/kotlin/sched/Sched.kt:16-20 | the admission loop splits the queue into the arrived prefix and the remaining suffix |
| Arrivals.ArrivedCountSorted | app/src/main/kotlin/sched/Sched.kt:16-20 | in a sorted queue, a process is taken out exactly when its arrival time is at most the current time |
| Arrivals.ArrivedCountUnique | app/src/main/kotlin/sched/Sched.kt:16-20 | the loop's stopping point is the only position whose prefix has arrived and whose next element has not |
| ReadyQueues.Fresh | app/src/main/kotlin/sched/Sched.kt:126-128 | a freshly admitted process becomes an entry with its whole service time remaining |
| ReadyQueues.FreshConcat | app/src/main/kotlin/sched/Sched.kt:16-20 | admitting two runs of processes one after the other admits their concatenation |
| ReadyQueues.AdmittedOneMore | app/src/main/kotlin/sched/Sched.kt:16-20 | one more loop iteration appends exactly the next process's entry (fresh, HRRN fresh, or HRRN back-dated) |
| ReadyQueues.RatioCrossMultiplication | app/src/main/kotlin/sched/Sched.kt:94-95 | comparing waitingTime/serviceTime as reals agrees with the integer cross-multiplication, for both strict order and equality |
| ReadyQueues.HrrnBeforeTransitive | app/src/main/kotlin/sched/Sched.kt:90-91 | the HRRN comparator, ratio descending and then id ascending, is transitive |
| ReadyQueues.StrfBefore | app/src/main/kotlin/sched/Sched.kt:174 | different remaining times decide by the smaller one; equal remaining times decide by the lower id |
| ReadyQueues.HrrnBefore | app/src/main/kotlin/sched/Sched.kt:90-91 | for positive service times, one entry comes first exactly when its response ratio, as an exact real, is higher, or equal with a lower or equal id |
| ReadyQueues.IndexOfShortest | app/src/main/kotlin/sched/Sched.kt:174 | the chosen entry precedes every ready entry by (remaining time, id) |
| ReadyQueues.IndexOfHighestRatio | app/src/main/kotlin/sched/Sched.kt:90-91 | the chosen entry precedes every ready entry by ratio descending and then id ascending |
| ReadyQueues.RemoveAt | app/src/main/kotlin/sched/Sched.kt:61 | taking an entry out leaves the others in order, one fewer, as the same multiset less that entry |
| ReadyQueues.WorkConcat | app/src/main/kotlin/sched/Sched.kt:26-33 | the work a queue owes each process, and in total, is additive over concatenation |
| ReadyQueues.WorkRemoveAt | app/src/main/kotlin/sched/Sched.kt:61 | taking an entry out lowers only its own process's owed work, and by its remaining time |
| ReadyQueues.WorkAround | app/src/main/kotlin/sched/Sched.kt:61 | a queue owes what comes before an entry, plus the entry, plus what comes after it |
| ReadyQueues.TotalWorkPositive | app/src/main/kotlin/sched/Sched.kt:121 | a queue of entries with positive remaining time owes positive work when it is not empty |
| ReadyQueues.HrrnWork | app/src/main/kotlin/sched/Sched.kt:59-63 | an HRRN entry owes its whole service time, because HRRN never runs a process in part |
| ReadyQueues.HrrnWorkConcat | app/src/main/kotlin/sched/Sched.kt:66-69 | the work of HRRN entries is additive over concatenation |
| ReadyQueues.HrrnFresh | app/src/main/kotlin/sched/Sched.kt:78-84 | a process admitted by the loop joins HRRN with waiting time 0 and owes its service time |
| ReadyQueues.HrrnBackDated | app/src/main/kotlin/sched/Sched.kt:72-75 | a process that arrived during a burst joins with waiting time now − arrival, and owes its service time |
| ReadyQueues.Waited | app/src/main/kotlin/sched/Sched.kt:66-69 | every entry's waiting time grows by the burst, and nothing else changes |
| ReadyQueues.HrrnWorkRemoveAt | app/src/main/kotlin/sched/Sched.kt:61 | taking an HRRN entry out and reading the queue as work commute |
| Ledger.RunStep | app/src/main/kotlin/sched/Sched.kt:114-116 | running process j for b units, once it has arrived, moves b units from what it is owed to the time the trace gives it, and keeps it from finishing before arrival plus run time |
| Ledger.IdleStep | app/src/main/kotlin/sched/Sched.kt:48-49 | an idle interval leaves every process's owed work and busy time unchanged |
| Ledger.LedgerSettled | app/src/main/kotlin/sched/Sched.kt:26-33 | when nothing is owed, each process has run exactly its service time, and finishes no earlier than arrival plus service time |
| Ledger.WorkSplit | app/src/main/kotlin/sched/Sched.kt:16-20 | the arrival queue owes what its admitted prefix and its remaining suffix owe |
| Ledger.AdmitPrefix | app/src/main/kotlin/sched/Sched.kt:16-20 | after admitting an arrived prefix, the rest is still a well-formed arrival queue, and the admitted entries are well formed. The queue's work is the prefix's work plus the rest's |
| Ledger.AdmittedRun | app/src/main/kotlin/sched/Sched.kt:16-20 | after admission, no pending process arrived before now, and the admitted entries are well formed |
| Ledger.AdmittedHrrn | app/src/main/kotlin/sched/Sched.kt:72-75 | back-dated HRRN admissions have waiting times equal to the time since they arrived, and no process left pending arrived before now |
| Ledger.SuffixWellFormed | app/src/main/kotlin/sched/Sched.kt:16-20 | what the admission loop leaves of a well-formed arrival queue is still sorted, and lists only input processes with work |
| Ledger.AdmittedRunEntries | app/src/main/kotlin/sched/Sched.kt:126-128 | arrived processes admitted to RR, STRF or MLFQ become entries of input processes that have arrived and still need work |
| Ledger.AdmittedHrrnEntries | app/src/main/kotlin/sched/Sched.kt:78-84 | processes admitted to HRRN with waiting time 0, when none was overdue, have waiting times equal to the time since they arrived |
| Ledger.BackDatedHrrnEntries | app/src/main/kotlin/sched/Sched.kt:72-75 | processes admitted to HRRN with waiting time now − arrival have waiting times equal to the time since they arrived |
| Ledger.AdmitArrived | app/src/main/kotlin/sched/Sched.kt:16-20 | every process the admission loop leaves pending arrives strictly after the current time |
| Ledger.RunEntriesLater | app/src/main/kotlin/sched/Sched.kt:114-115 | ready entries that are valid at one time stay valid as the clock moves forward |
| Ledger.RunEntriesConcat | app/src/main/kotlin/sched/Sched.kt:121 | appending valid ready entries to a valid ready queue gives a valid queue |
| Ledger.HrrnEntriesConcat | app/src/main/kotlin/sched/Sched.kt:72-75 | appending valid HRRN entries to a valid HRRN queue gives a valid queue |
| Ledger.NoneBeforeEarlier | app/src/main/kotlin/sched/Sched.kt:26-33 | if no pending process arrives before a time, none arrives before any earlier time |
| Ledger.HrrnEntriesPositive | app/src/main/kotlin/sched/Sched.kt:13 | every HRRN entry has service time > 0, so the ratio is defined |
| Ledger.RunEntriesPositive | app/src/main/kotlin/sched/Sched.kt:121 | every ready entry has remaining time > 0, so a non-empty ready queue owes work |
| Ledger.FreshPositive | app/src/main/kotlin/sched/Sched.kt:13 | a non-empty arrival queue owes work, because zero-service processes never enter it |
| Ledger.WorkLeftNonNegative | app/src/main/kotlin/sched/Sched.kt:26-33 | the termination measure is never negative |
| Ledger.NothingOwed | app/src/main/kotlin/sched/Sched.kt:26 | empty queues owe nothing to anyone |
| Steps.QueuesOkReady | app/src/main/kotlin/sched/Sched.kt:26-33 | queues with no pending process in the past of the clock have none overdue, so they satisfy the loop invariant's queue part |
| Steps.OwedTableLess | app/src/main/kotlin/sched/Sched.kt:114-116 | when a burst owes one process b less, the table of owed work drops by b in that process's row and nowhere else |
| Steps.NoneBeforeNotOverdue | app/src/main/kotlin/sched/Sched.kt:16-20 | a pending process that does not arrive before the clock is not overdue |
| Steps.RunKeepsConsistent | app/src/main/kotlin/sched/Sched.kt:114-115 | logging a burst of b and moving the clock by b keeps the clock at the end of a well-formed trace, with valid queues |
| Steps.RunKeepsBalance | app/src/main/kotlin/sched/Sched.kt:114-116 | logging a burst of b for a process that is then owed b less keeps the ledger balanced |
| Steps.WorkHead | app/src/main/kotlin/sched/Sched.kt:109 | a queue owes its head's remaining time plus what its tail owes |
| Steps.PoppedEntriesOk | app/src/main/kotlin/sched/Sched.kt:109 | the popped head belongs to an input process that has arrived and has work, and the tail stays valid at a later time |
| Steps.RejoinedEntriesOk | app/src/main/kotlin/sched/Sched.kt:121 | putting a preempted entry back at the tail keeps the queue valid |
| Steps.Slice | app/src/main/kotlin/sched/Sched.kt:110-112 | the burst is the remaining time when that is within the quantum, and the quantum otherwise |
| Steps.Rejoin | app/src/main/kotlin/sched/Sched.kt:121 | the preempted entry rejoins with exactly its remaining time less the burst, and only when that is positive |
| Steps.InitialInvariant | app/src/main/kotlin/sched/Sched.kt:10-14 | at time 0 with an empty trace, an arrival queue owing each process its service time satisfies the loop invariant |
| Steps.AdmitFirstOwed | app/src/main/kotlin/sched/Sched.kt:16-20 | admission moves work from the arrival queue to the ready queue without changing what anyone is owed |
| Steps.AdmitHrrnOwed | app/src/main/kotlin/sched/Sched.kt:78-84 | HRRN admission with waiting time 0 changes nothing anyone is owed |
| Steps.AdmitFirstKeeps | app/src/main/kotlin/sched/Sched.kt:16-20 | admission into the first ready queue keeps the arrival queue well formed, leaves only later arrivals, keeps the first queue valid and leaves the other queues alone |
| Steps.AdmitHrrnKeeps | app/src/main/kotlin/sched/Sched.kt:78-84 | admission into HRRN keeps the arrival queue well formed, leaves only later arrivals, keeps the HRRN queue valid and leaves the other queues alone |
| Steps.AdmitInvariant | app/src/main/kotlin/sched/Sched.kt:16-20 | admission keeps the invariant, leaves only processes that arrive strictly later, and keeps the work left |
| Steps.JumpConsistent | app/src/main/kotlin/sched/Sched.kt:42-51 | with every ready queue empty, an idle interval up to the next arrival moves the clock there and keeps the state consistent, and makes that arrival admissible |
| Steps.JumpInvariant | app/src/main/kotlin/sched/Sched.kt:42-51 | jumping to the next arrival with an idle interval keeps the invariant, and makes at least one process admissible |
| Steps.RunKeepsInvariant | app/src/main/kotlin/sched/Sched.kt:114-116 | a burst that advances the clock by the duration it logs, and owes only the running process that much less, keeps the invariant and lowers the work left by that amount |
| Steps.RoundRobinAdmits | app/src/main/kotlin/sched/Sched.kt:107-122 | RR's step is: pop the head, admit the arrivals, and then rejoin the tail |
| Steps.RoundRobinOwed | app/src/main/kotlin/sched/Sched.kt:107-122 | an RR burst owes only the process it ran less, and by exactly the burst |
| Steps.RoundRobinEntries | app/src/main/kotlin/sched/Sched.kt:107-122 | after an RR burst the queues are well formed at the new time |
| Steps.RoundRobinPremises | app/src/main/kotlin/sched/Sched.kt:107-122 | an RR burst satisfies the premises of a step: the process that ran had arrived, is owed exactly b less, and the queues are valid afterwards |
| Steps.RoundRobinStepInvariant | app/src/main/kotlin/sched/Sched.kt:107-122 | an RR burst keeps the invariant and lowers the work left by the burst |
| Steps.FirstTierAdmits | app/src/main/kotlin/sched/Sched.kt:192-206 | a tier-1 step pops the head, admits the arrivals into tier 1, and then demotes what is left to tier 2 |
| Steps.SecondTierAdmits | app/src/main/kotlin/sched/Sched.kt:207-221 | a tier-2 step pops the head, admits the arrivals into tier 1, and then demotes what is left to tier 3 |
| Steps.ThirdTierAdmits | app/src/main/kotlin/sched/Sched.kt:222-231 | a tier-3 step pops the head, runs it to completion, and admits the arrivals into tier 1 |
| Steps.FirstTierOwed | app/src/main/kotlin/sched/Sched.kt:192-206 | a tier-1 burst owes only the process it ran less, and by exactly the burst |
| Steps.SecondTierOwed | app/src/main/kotlin/sched/Sched.kt:207-221 | a tier-2 burst owes only the process it ran less, and by exactly the burst |
| Steps.ThirdTierOwed | app/src/main/kotlin/sched/Sched.kt:222-231 | a tier-3 burst settles all the work owed to the process it ran |
| Steps.FirstTierEntries | app/src/main/kotlin/sched/Sched.kt:192-206 | after a tier-1 burst the queues are well formed at the new time, and the process that ran had arrived |
| Steps.SecondTierEntries | app/src/main/kotlin/sched/Sched.kt:207-221 | after a tier-2 burst the queues are well formed at the new time, and the process that ran had arrived |
| Steps.ThirdTierEntries | app/src/main/kotlin/sched/Sched.kt:222-231 | after a tier-3 burst the queues are well formed at the new time, and the process that ran had arrived and had positive work |
| Steps.FirstTierPremises | app/src/main/kotlin/sched/Sched.kt:192-206 | a tier-1 burst satisfies the premises of a step |
| Steps.SecondTierPremises | app/src/main/kotlin/sched/Sched.kt:207-221 | a tier-2 burst satisfies the premises of a step |
| Steps.ThirdTierPremises | app/src/main/kotlin/sched/Sched.kt:222-231 | a tier-3 burst satisfies the premises of a step, with a positive burst |
| Steps.FirstTierStepInvariant | app/src/main/kotlin/sched/Sched.kt:192-206 | a tier-1 burst keeps the invariant and lowers the work left by the burst |
| Steps.SecondTierStepInvariant | app/src/main/kotlin/sched/Sched.kt:207-221 | a tier-2 burst keeps the invariant and lowers the work left by the burst |
| Steps.ThirdTierStepInvariant | app/src/main/kotlin/sched/Sched.kt:222-231 | a tier-3 burst keeps the invariant and lowers the work left by the entry's positive remaining time |
| Steps.AdmitHeadOwed | app/src/main/kotlin/sched/Sched.kt:153 | moving the next arrival from the arrival queue to the ready queue changes no process's owed work |
| Steps.RemovedEntriesOk | app/src/main/kotlin/sched/Sched.kt:145 | the entry taken out belongs to an input process that has arrived and has work, and the rest stay valid at a later time |
| Steps.StrfOwed | app/src/main/kotlin/sched/Sched.kt:143-162 | an STRF burst owes only the process it ran less, and by exactly the burst, including when it admits the next arrival |
| Steps.CompletionArrivals | app/src/main/kotlin/sched/Sched.kt:150 | when the process runs to completion, every pending arrival is after its predicted finish |
| Steps.PreemptionArrivals | app/src/main/kotlin/sched/Sched.kt:151-155 | on preemption, the one arrival taken in is the earliest, and no other pending arrival is before it |
| Steps.StrfEntries | app/src/main/kotlin/sched/Sched.kt:143-162 | after an STRF burst the queues are well formed, and a zero-length burst still admits one arrival |
| Steps.StrfPremises | app/src/main/kotlin/sched/Sched.kt:143-162 | an STRF burst satisfies the premises of a step. It either has positive length or shortens the arrival queue |
| Steps.StrfStepInvariant | app/src/main/kotlin/sched/Sched.kt:143-162 | an STRF burst keeps the invariant and lowers the work left by the burst. The burst is ≥ 0, and when it is 0 the arrival queue shrinks |
| Steps.WorkCons | app/src/main/kotlin/sched/Sched.kt:13 | an arrival queue owes its head's service time plus what its tail owes |
| Steps.HrrnOwed | app/src/main/kotlin/sched/Sched.kt:59-76 | an HRRN burst owes only the process it ran less, and by its whole service time |
| Steps.HrrnQueueWork | app/src/main/kotlin/sched/Sched.kt:61-75 | after the burst, the HRRN queue owes what it owed, less the entry that ran, plus the processes that arrived meanwhile |
| Steps.ArrivalsWork | app/src/main/kotlin/sched/Sched.kt:72-75 | the arrival queue owes what the arrived processes and those still to arrive owe |
| Steps.WaitedEntriesOk | app/src/main/kotlin/sched/Sched.kt:66-69 | after the others wait the burst, each waiting time is still the time since the process arrived |
| Steps.HrrnEntries | app/src/main/kotlin/sched/Sched.kt:59-76 | after an HRRN burst of positive length, the queues are well formed at the new time |
| Steps.HrrnPremises | app/src/main/kotlin/sched/Sched.kt:59-76 | an HRRN burst satisfies the premises of a step, with a positive burst |
| Steps.HrrnStepInvariant | app/src/main/kotlin/sched/Sched.kt:59-76 | an HRRN burst keeps the invariant and lowers the work left by a positive service time |
| Steps.InvariantWorkLeft | app/src/main/kotlin/sched/Sched.kt:26-33 | under the invariant the termination measure is non-negative |
| Steps.DrainedSettles | app/src/main/kotlin/sched/Sched.kt:26-33 | when every queue is empty, each process has run for exactly its service time, and finished no earlier than its arrival plus service time |
| Steps.NextRunInvariant | app/src/main/kotlin/sched/Sched.kt:22-34 | every burst `burst()` can make, for every policy and MLFQ tier, keeps the loop invariant and runs an input process; it lowers the work left by its length, or has length 0 and admits a pending process; afterwards the trace ends with a process running unless a ready entry is left |
| Steps.RunProgresses | app/src/main/kotlin/sched/Sched.kt:26-33 | a run that meets the premises of a step, and takes time or admits a process, makes progress in the sense above |
| Steps.HrrnProgresses | app/src/main/kotlin/sched/Sched.kt:59-76 | HRRN's burst of the selected entry makes progress and keeps the invariant |
| Steps.StrfProgresses | app/src/main/kotlin/sched/Sched.kt:143-162 | STRF's burst of the selected entry makes progress and keeps the invariant; a burst of length 0 is a preemption that admits the next arrival |
| Steps.RoundRobinProgresses | app/src/main/kotlin/sched/Sched.kt:107-122 | RR's burst of its head makes progress and keeps the invariant |
| Steps.FirstTierProgresses | app/src/main/kotlin/sched/Sched.kt:192-206 | with tier 1 non-empty, MLFQ's burst is tier 1's, and it makes progress and keeps the invariant |
| Steps.SecondTierProgresses | app/src/main/kotlin/sched/Sched.kt:207-221 | with tier 1 empty and tier 2 non-empty, MLFQ's burst is tier 2's, and it makes progress and keeps the invariant |
| Steps.ThirdTierProgresses | app/src/main/kotlin/sched/Sched.kt:222-231 | with tiers 1 and 2 empty, MLFQ's burst runs tier 3's head to completion, and it makes progress and keeps the invariant |
| Scheduling.WorkOfInsert | app/src/main/kotlin/sched/Sched.kt:13 | inserting a process into the arrival queue adds its service time to what that process is owed |
| Scheduling.ScheduledMembers | app/src/main/kotlin/sched/Sched.kt:13 | the filtered processes are exactly the input processes with serviceTime ≠ 0 |
| Scheduling.ArrivalQueueStep | app/src/main/kotlin/sched/Sched.kt:13 | adding the next input process, when it has work, keeps the queue well formed, and the queue owes it its service time |
| Scheduling.BuildArrivalQueue | app/src/main/kotlin/sched/Sched.kt:11-13 | the queue is sorted by (arrival, id), holds exactly the processes with serviceTime ≠ 0, and owes each process its service time |
| Scheduling.ScheduledStep | app/src/main/kotlin/sched/Sched.kt:13 | filtering one more input process adds it to the filtered multiset exactly when it has work |
| Scheduling.SameMembers | app/src/main/kotlin/sched/Sched.kt:13 | two queues with the same multiset of processes have the same members |
| Scheduling.Scheduler.constructor | app/src/main/kotlin/sched/Sched.kt:5-14 | for a non-empty process set (a `PriorityQueue` of capacity 0 cannot be built): time 0, an empty trace, empty ready queues, every process with work pending, and the loop invariant holding |
| Scheduling.Scheduler.IsReadyQueueEmpty | app/src/main/kotlin/sched/Sched.kt:235-236 | with each policy using only its own queues, the policy's test holds exactly when no queue has an entry |
| Scheduling.Scheduler.AddWaitingProcess | app/src/main/kotlin/sched/Sched.kt:82-84 | the HRRN queue gains exactly the entry with the given waiting time |
| Scheduling.Scheduler.AddFreshProcessToReadyQueue | app/src/main/kotlin/sched/Sched.kt:126-128 | HRRN gets an entry with waiting time 0. The other policies get an entry with the whole service time, which for MLFQ is tier 1 |
| Scheduling.Scheduler.AddArrivedProcesses | app/src/main/kotlin/sched/Sched.kt:16-20 | the queues after the loop are the admission function of the queues before it |
| Scheduling.Scheduler.AdmitPending | app/src/main/kotlin/sched/Sched.kt:16-20 | admission keeps the invariant, removes the arrived processes, and leaves only strictly later arrivals |
| Scheduling.Scheduler.JumpToNextArrivalTime | app/src/main/kotlin/sched/Sched.kt:42-51 | corrected jump. It fails exactly when the next arrival is in the past; otherwise it logs an idle interval up to that arrival and moves the clock there. The arrival stays queued |
| Scheduling.Scheduler.JumpToNextArrivalTimeAsWritten | app/src/main/kotlin/sched/Sched.kt:42-51 | the jump as written takes the next arrival out of the queue, so the work it needs is no longer owed by any queue |
| Scheduling.Scheduler.WaitAll | app/src/main/kotlin/sched/Sched.kt:66-69 | every HRRN entry has waited the burst more |
| Scheduling.Scheduler.AddArrivedWaiting | app/src/main/kotlin/sched/Sched.kt:72-75 | the processes arrived by now leave the arrival queue and join HRRN, in order, credited with now − arrival |
| Scheduling.Scheduler.HrrnBurst | app/src/main/kotlin/sched/Sched.kt:59-76 | runs the entry with the highest ratio (lowest id on ties) for its whole service time, lets the others wait that long, and admits the arrivals back-dated |
| Scheduling.Scheduler.RoundRobinBurst | app/src/main/kotlin/sched/Sched.kt:107-122 | runs the head for the smaller of its remaining time and the quantum, admits the arrivals, and then rejoins the tail with what is left |
| Scheduling.Scheduler.ShortestRemainingBurst | app/src/main/kotlin/sched/Sched.kt:143-162 | runs the least (remaining, id) entry to completion, or up to the next arrival, which it admits |
| Scheduling.Scheduler.FirstTierBurst | app/src/main/kotlin/sched/Sched.kt:192-206 | runs tier 1's head for at most the first quantum, admits the arrivals, and then demotes what is left to tier 2 |
| Scheduling.Scheduler.SecondTierBurst | app/src/main/kotlin/sched/Sched.kt:207-221 | with tier 1 empty, runs tier 2's head for at most the second quantum, admits the arrivals, and then demotes what is left to tier 3 |
| Scheduling.Scheduler.ThirdTierBurst | app/src/main/kotlin/sched/Sched.kt:222-231 | with tiers 1 and 2 empty, runs tier 3's head to completion and then admits the arrivals |
| Scheduling.Scheduler.HrrnStep | app/src/main/kotlin/sched/Sched.kt:59-76 | runs the entry with the highest ratio: the clock moves on by its service time, the trace records it, and the queues become `HrrnQueues` of the old ones, which is `NextRun`'s burst; the loop invariant holds again and the work left is strictly lower |
| Scheduling.Scheduler.RoundRobinStep | app/src/main/kotlin/sched/Sched.kt:107-122 | runs the head for `Slice(remaining, quantum)`: the clock and the trace move on by that much and the queues become `RoundRobinQueues` of the old ones (`NextRun`'s burst); the invariant holds again and the work left is strictly lower |
| Scheduling.Scheduler.ShortestRemainingStep | app/src/main/kotlin/sched/Sched.kt:143-162 | runs the least (remaining, id) entry for `StrfBurst`: the clock and the trace move on by that much and the queues become `StrfQueues` of the old ones (`NextRun`'s burst); the invariant holds again; the work left is lower, or unchanged with a shorter arrival queue |
| Scheduling.Scheduler.FirstTierStep | app/src/main/kotlin/sched/Sched.kt:192-206 | runs tier 1's head for at most the first quantum: the clock and the trace move on by that much and the queues become `FirstTierQueues` of the old ones (`NextRun`'s burst); the invariant holds again and the work left is strictly lower |
| Scheduling.Scheduler.SecondTierStep | app/src/main/kotlin/sched/Sched.kt:207-221 | with tier 1 empty, runs tier 2's head for at most the second quantum: the clock and the trace move on by that much and the queues become `SecondTierQueues` of the old ones (`NextRun`'s burst); the invariant holds again and the work left is strictly lower |
| Scheduling.Scheduler.ThirdTierStep | app/src/main/kotlin/sched/Sched.kt:222-231 | with tiers 1 and 2 empty, runs tier 3's head to completion: the clock and the trace move on by its remaining time and the queues become `ThirdTierQueues` of the old ones (`NextRun`'s burst); the invariant holds again and the work left is strictly lower |
| Scheduling.Scheduler.Burst | app/src/main/kotlin/sched/Sched.kt:59-233 | runs the entry `Selected` names (HRRN's highest ratio, STRF's least remaining time, RR's head, MLFQ's head of the first non-empty tier, in tier order 1, 2, 3) and leaves exactly the clock, trace and queues of `NextRun`; the invariant holds again, the termination measure drops, and the trace ends with a process running unless a ready entry is left |
| Scheduling.Scheduler.IdleUntilArrival | app/src/main/kotlin/sched/Sched.kt:27-29 | with no ready entry: the trace records an idle interval up to the next arrival, the clock moves to that arrival, and the queues become `Admit` of the old ones at that time, so a ready entry exists; the invariant and the work left are kept and the arrival queue is shorter |
| Scheduling.Scheduler.Schedule | app/src/main/kotlin/sched/Sched.kt:22-34 | the loop ends with every queue empty. Each process has then run for exactly its service time and finished no earlier than its arrival plus service time; the trace names only input processes and idle gaps, and does not end idle |
| Scheduling.Run | app/src/main/kotlin/sched/Sched.kt:10-14 | there is no trace exactly when the process set is empty (the source's `PriorityQueue` constructor throws); otherwise the trace is complete |
| Scheduling.Hrrn | app/src/main/kotlin/sched/Sched.kt:247-249 | no trace exactly for an empty process set; otherwise the HRRN trace is complete: well formed, naming only input processes and idle gaps, not ending idle, each process run for exactly its service time, and none finished early |
| Scheduling.Rr | app/src/main/kotlin/sched/Sched.kt:251-253 | no trace exactly for an empty process set; otherwise the RR trace is complete in the same sense |
| Scheduling.Strf | app/src/main/kotlin/sched/Sched.kt:255-257 | no trace exactly for an empty process set; otherwise the STRF trace is complete in the same sense |
| Scheduling.Mlfq | app/src/main/kotlin/sched/Sched.kt:259-261 | no trace exactly for an empty process set; otherwise the MLFQ trace is complete in the same sense |
| Scheduling.LostArrivalWitness | app/src/main/kotlin/sched/Sched.kt:22-51 | with the jump as written, P0 (arrival 2, service 3) under RR: the loop's condition is false after one idle step, so the loop stops with only an idle interval of 2, and P0 never runs |
| Scheduling.OnlyElement | app/src/main/kotlin/sched/Sched.kt:11-13 | a queue built from exactly one process is that one process |
| Scheduling.SingleLateArrival | app/src/main/kotlin/sched/Sched.kt:10-14 | constructing the scheduler over that single process queues it as the only arrival |
| Metrics.IdsArePositions | app/src/main/kotlin/sched/Metrics.kt:6-9 | when the i-th process has id i, the ids, and so the finish map's keys, are exactly 0..n-1. Sorting by id or by key then lines the figures up by position |
| Metrics.FinishTimes | app/src/main/kotlin/sched/Metrics.kt:12-22 | the map's keys are exactly the input ids, and idle entries add none. Each id maps to the end of its pid's last interval, or 0 when it never ran |
| Metrics.TurnaroundTimes | app/src/main/kotlin/sched/Metrics.kt:5-10 | there is one turnaround per process, in id order |
| Metrics.WaitingTimes | app/src/main/kotlin/sched/Metrics.kt:24-29 | there is one waiting time per process, in id order |
| Metrics.PerProcess | app/src/main/kotlin/sched/Metrics.kt:5-29 | turnaround is finish − arrival, and waiting is finish − arrival − service, for the process with that id |
| Metrics.Average | app/src/main/kotlin/sched/Metrics.kt:31-37 | the average is not a number exactly for no values; otherwise it times the count is the sum |
| Metrics.AverageTurnaround | app/src/main/kotlin/sched/Metrics.kt:31-33 | not a number exactly when there are no processes; otherwise the average times the process count is the sum of the turnaround times |
| Metrics.AverageWaiting | app/src/main/kotlin/sched/Metrics.kt:35-37 | not a number exactly when there are no processes; otherwise the average times the process count is the sum of the waiting times |
| Metrics.SumWithin | app/src/main/kotlin/sched/Metrics.kt:31-37 | values within bounds sum to within count times the bounds |
| Metrics.AverageWithin | app/src/main/kotlin/sched/Metrics.kt:31-37 | the average of values within bounds is a number within those bounds |
| Metrics.IdleNeverRan | app/src/main/kotlin/sched/Metrics.kt:16-19 | a pid with no busy time in a trace without empty intervals keeps finish time 0 |
| Metrics.BusyNonNegative | app/src/main/kotlin/sched/Metrics.kt:16-19 | a pid's busy time in a trace of positive intervals is never negative |
| Metrics.CompleteFigures | app/src/main/kotlin/sched/Metrics.kt:5-29 | on a finished run, a process with work has waiting time ≥ 0 and turnaround ≥ service time. A process with no work has turnaround and waiting time equal to −arrival |
| Metrics.CompleteAverages | app/src/main/kotlin/sched/Metrics.kt:31-37 | on a finished run of processes with work, the average waiting time is a non-negative number, and the average turnaround is at least the shortest service time |
| Metrics.Finishes | app/src/main/kotlin/sched/Metrics.kt:12-22 | one finish time per input process, in id order, each the end of its last interval |
| Metrics.TotalIsLatestFinish | app/src/main/kotlin/sched/Metrics.kt:12-22 | on a finished run the trace's total time is the largest finish time |
| Metrics.MaxOfAttained | app/src/main/kotlin/sched/Metrics.kt:12-22 | a non-negative element that bounds all others is the maximum |
| Metrics.MaxOfAtMost | app/src/main/kotlin/sched/Metrics.kt:12-22 | a non-negative bound on every element bounds the maximum |
| Metrics.RoundRobinWaitingExample | app/src/main/kotlin/sched/Metrics.kt:24-37 | RR with quantum 4 over P0 (0, 5) and P1 (1, 3): the trace P0 4, P1 3, P0 1 (worked by hand, taken as given) gives waiting times [3, 3] and an average of 3 |

## Left out

- Input, output and the command line are not part of this model: reading the process set and quanta, printing, `runCatching` and exiting. The input checks become preconditions: `WellFormedInput` (ids are 0..n-1 and service times ≥ 0) and `PolicyOk` (quanta > 0). Arrival times are unchecked, so they may be negative.
- Formatting an average by trimming trailing zeros works on floating-point strings with a regular expression. It is not part of this model.
- ReadyQueues.IndexOfHighestRatio, ReadyQueues.HrrnBefore: the HRRN queue compares the `Double` ratios waitingTime/serviceTime; the model compares the exact ratios by cross-multiplication. Two different ratios that round to the same `Double` tie in the source, where the id breaks the tie. The model orders them by their exact values instead.
- Metrics.Average, Metrics.AverageTurnaround, Metrics.AverageWaiting: the averages are exact reals, not `Double` values with rounding.
- Scheduling.Scheduler.Schedule: integers are unbounded. The source's 32-bit `Int` clock, `waitingTime` and `remainingTime` can wrap around, and that is not modelled. The HRRN comparison by cross-multiplication agrees with the source's division of `Double` ratios only because `int` is unbounded.
- The Java collections become sequences:
  - the arrival `PriorityQueue` is a sorted sequence
  - the STRF and HRRN `PriorityQueue`s are sequences with a minimum search
  - the `ArrayDeque` and `LinkedList` queues are FIFO sequences
  - `hashCode` and heap layout play no part
- Ready entries are values. The source changes `remainingTime` or `waitingTime` of an entry object in place; the model rebuilds the entry with the new time. No entry is shared between two queues, so nothing observable depends on aliasing.
- One `Scheduler` class with a `Policy` tag stands for the abstract class and its four subclasses. Traits are not used.
- Scheduling.Scheduler.JumpToNextArrivalTime: the `error(...)` that aborts the run is modelled as `ok == false` with nothing changed. `Schedule` is proved never to reach it.
- Scheduling.Scheduler.constructor, Scheduling.Run, Scheduling.Hrrn, Scheduling.Rr, Scheduling.Strf, Scheduling.Mlfq: on an empty process set the source throws, because Java's `PriorityQueue` refuses an initial capacity of 0 (`Main.kt` then prints `Error: unknown` and exits). The constructor requires a process. The entry points model the exception as no trace (`null`), and do not model the abort of the program.
- `Gantt.add(pair)`, the `plusAssign` operators and `entries()` only forward to `add` or expose the list. They have no members of their own.
- Metrics.TurnaroundTimes: the source returns a `Map` from index to value, built by sorting and zipping; the model returns the sequence of the map's values in key order. With ids 0..n-1 the two carry the same information (`Metrics.IdsArePositions`).

## Findings

| source | as written | input that shows it | evidently intended | confidence | as-written member | corrected member |
|---|---|---|---|---|---|---|
| app/src/main/kotlin/sched/Sched.kt:42-51 | `jumpToNextArrivalTime` takes the next arrival out of the queue with `remove()` and never hands it to the ready queue. The `addArrivedProcesses()` that follows sees only the processes behind it, so that process never runs. | One process, id 0, arrival 2, service 3, under RR with quantum 1: the trace is "(0) Idle (2)" and P0 never runs. | The jump only looks at the next arrival (`peek()`), and the admission that follows takes it in. Every process then runs for its service time. | not executed | Scheduling.LostArrivalWitness | Scheduling.Scheduler.JumpToNextArrivalTime |

`Scheduling.Scheduler.JumpToNextArrivalTimeAsWritten` is the jump exactly as
written. Its contract states that the removed process's work leaves what the
queues owe. `Scheduling.LostArrivalWitness` runs it on the input above.
`Scheduling.Scheduler.Schedule` uses the corrected jump and proves that every
process runs for exactly its service time.

Zero-service processes are counted as the code counts them. The finish map
starts every id at 0, so a process that never runs keeps finish time 0 and has
turnaround −arrival. Such processes are also included in both averages.
