/** Facts about one simulation run that the scheduler keeps as its invariant,
    stated over plain values: how the queues may look, and the ledger that
    ties the trace to the work still owed to each process. */
module Ledger {
  import opened Processes
  import opened Timeline
  import opened Arrivals
  import opened ReadyQueues

  /** An arrival time clamped at the start of the simulation. */
  function Max0(t: int): int
  {
    if t < 0 then 0 else t
  }

  /** The processes the arrival queue is built from: those with some work to do, in input order. */
  function Scheduled(ps: seq<Process>): seq<Process>
  {
    if ps == [] then []
    else Scheduled(ps[..|ps| - 1]) + (if ps[|ps| - 1].serviceTime != 0 then [ps[|ps| - 1]] else [])
  }

  /** A pending arrival is one of the input processes, with positive service time. */
  ghost predicate Listed(procs: seq<Process>, p: Process)
  {
    0 <= p.id < |procs| && procs[p.id] == p && p.serviceTime > 0
  }

  /** Every pending arrival is listed, and the queue keeps the arrival order.
      (The quantifiers of this module fire only on the element predicates a
      proof names, not on every position of every queue in sight.) */
  ghost predicate ArrivalsWellFormed(procs: seq<Process>, q: seq<Process>)
  {
    && Sorted(q)
    && forall i {:trigger Listed(procs, q[i])} :: 0 <= i < |q| ==> Listed(procs, q[i])
  }

  /** Process `p` is not overdue at time `t` (arrivals before 0 count as arriving at 0). */
  predicate NotOverdue(p: Process, t: int)
  {
    Max0(p.arrivalTime) >= t
  }

  /** No pending arrival is overdue at time `t`. */
  ghost predicate NoneOverdue(q: seq<Process>, t: int)
  {
    forall i {:trigger NotOverdue(q[i], t)} :: 0 <= i < |q| ==> NotOverdue(q[i], t)
  }

  /** Process `p` does not arrive before `t`. */
  predicate NotBefore(p: Process, t: int)
  {
    p.arrivalTime >= t
  }

  /** No pending arrival lies in the past of `t`: the state at the head of the loop. */
  ghost predicate NoneBefore(q: seq<Process>, t: int)
  {
    forall i {:trigger NotBefore(q[i], t)} :: 0 <= i < |q| ==> NotBefore(q[i], t)
  }

  /** A ready entry of RR, STRF or MLFQ belongs to an input process that has
      arrived by `t` and still needs work. */
  ghost predicate RunEntryOk(procs: seq<Process>, t: int, e: RunEntry)
  {
    0 <= e.id < |procs| && e.remainingTime > 0 && procs[e.id].arrivalTime <= t
  }

  ghost predicate RunEntriesOk(procs: seq<Process>, t: int, q: seq<RunEntry>)
  {
    forall i {:trigger RunEntryOk(procs, t, q[i])} :: 0 <= i < |q| ==> RunEntryOk(procs, t, q[i])
  }

  /** A ready HRRN entry belongs to an input process that has arrived by `t`,
      carries its service time, and its waiting time is the time since it
      arrived (or since 0, for arrivals before 0). */
  ghost predicate HrrnEntryOk(procs: seq<Process>, t: int, e: HrrnEntry)
  {
    && 0 <= e.id < |procs|
    && e.serviceTime == procs[e.id].serviceTime > 0
    && procs[e.id].arrivalTime <= t
    && e.waitingTime == t - Max0(procs[e.id].arrivalTime)
  }

  ghost predicate HrrnEntriesOk(procs: seq<Process>, t: int, q: seq<HrrnEntry>)
  {
    forall i {:trigger HrrnEntryOk(procs, t, q[i])} :: 0 <= i < |q| ==> HrrnEntryOk(procs, t, q[i])
  }

  /** The ledger: for every process, the time the trace attributes to it plus
      the work still owed to it is its service time; and once it has run, its
      intervals, packed against its finish time, start no earlier than its arrival. */
  ghost predicate Balanced(procs: seq<Process>, trace: seq<Entry>, owed: seq<int>)
  {
    && |owed| == |procs|
    && forall i {:trigger Busy(trace, i)} | 0 <= i < |procs| ::
         && Busy(trace, i) + owed[i] == procs[i].serviceTime
         && (Busy(trace, i) > 0 ==> FinishOf(trace, i) - Busy(trace, i) >= procs[i].arrivalTime)
  }

  /** Running process `j` for `b` units, when `j` has arrived by the end of the
      trace, moves `b` units from what `j` is owed to what the trace gives it. */
  lemma RunStep(procs: seq<Process>, trace: seq<Entry>, owed: seq<int>, owed': seq<int>, j: int, b: int)
    requires Balanced(procs, trace, owed) && WellFormed(trace)
    requires 0 <= j < |procs| && procs[j].arrivalTime <= Total(trace) && b >= 0
    requires |owed'| == |procs|
    requires forall i | 0 <= i < |procs| :: owed'[i] == owed[i] - (if i == j then b else 0)
    ensures Balanced(procs, Added(trace, Entry(j, b)), owed')
  {
    var trace' := Added(trace, Entry(j, b));
    forall i | 0 <= i < |procs|
      ensures Busy(trace', i) + owed'[i] == procs[i].serviceTime
      ensures Busy(trace', i) > 0 ==> FinishOf(trace', i) - Busy(trace', i) >= procs[i].arrivalTime
    {
      AddedAttribution(trace, Entry(j, b), i);
      if i == j && b != 0 {
        FinishWithinTotal(trace, i);
      }
    }
  }

  /** An idle gap changes nobody's share of the trace or finish time. */
  lemma IdleStep(procs: seq<Process>, trace: seq<Entry>, owed: seq<int>, b: int)
    requires Balanced(procs, trace, owed)
    ensures Balanced(procs, Added(trace, Entry(Idle, b)), owed)
  {
    forall i | 0 <= i < |procs|
      ensures Busy(Added(trace, Entry(Idle, b)), i) == Busy(trace, i)
      ensures FinishOf(Added(trace, Entry(Idle, b)), i) == FinishOf(trace, i)
    {
      AddedAttribution(trace, Entry(Idle, b), i);
    }
  }

  /** Once nothing is owed, every process has run for exactly its service time
      and, if it ran at all, finished no earlier than its arrival plus its service time. */
  lemma LedgerSettled(procs: seq<Process>, trace: seq<Entry>, owed: seq<int>)
    requires Balanced(procs, trace, owed)
    requires forall i | 0 <= i < |owed| :: owed[i] == 0
    ensures forall i | 0 <= i < |procs| :: Busy(trace, i) == procs[i].serviceTime
    ensures forall i | 0 <= i < |procs| && procs[i].serviceTime > 0 ::
              FinishOf(trace, i) >= procs[i].arrivalTime + procs[i].serviceTime
  {
  }

  // ---------------------------------------------------------------------------
  // Admission

  lemma WorkSplit(ps: seq<Process>, m: nat)
    requires m <= |ps|
    ensures forall id :: Work(Fresh(ps), id) == Work(Fresh(ps[..m]), id) + Work(Fresh(ps[m..]), id)
    ensures TotalWork(Fresh(ps)) == TotalWork(Fresh(ps[..m])) + TotalWork(Fresh(ps[m..]))
  {
    assert ps == ps[..m] + ps[m..];
    FreshConcat(ps[..m], ps[m..]);
    WorkConcat(Fresh(ps[..m]), Fresh(ps[m..]));
  }

  /** Admitting the first `m` pending processes, all arrived by `t`, leaves a
      well-formed arrival queue and ready entries that are well formed at `t`,
      and moves their work from the pending side to the ready side. */
  lemma AdmitPrefix(procs: seq<Process>, q: seq<Process>, m: nat, t: int)
    requires ArrivalsWellFormed(procs, q)
    requires m <= |q| && forall j :: 0 <= j < m ==> q[j].arrivalTime <= t
    ensures ArrivalsWellFormed(procs, q[m..])
    ensures RunEntriesOk(procs, t, Fresh(q[..m]))
    ensures NoneOverdue(q, t) && t >= 0 ==> HrrnEntriesOk(procs, t, HrrnFresh(q[..m]))
    ensures NoneBefore(q, 0) ==> HrrnEntriesOk(procs, t, HrrnBackDated(q[..m], t))
    ensures forall id :: Work(Fresh(q), id) == Work(Fresh(q[..m]), id) + Work(Fresh(q[m..]), id)
    ensures TotalWork(Fresh(q)) == TotalWork(Fresh(q[..m])) + TotalWork(Fresh(q[m..]))
  {
    WorkSplit(q, m);
    SuffixWellFormed(procs, q, m);
    AdmittedRunEntries(procs, q, m, t);
    if NoneOverdue(q, t) && t >= 0 {
      AdmittedHrrnEntries(procs, q, m, t);
    }
    if NoneBefore(q, 0) {
      BackDatedHrrnEntries(procs, q, m, t);
    }
  }

  lemma SuffixWellFormed(procs: seq<Process>, q: seq<Process>, m: nat)
    requires ArrivalsWellFormed(procs, q) && m <= |q|
    ensures ArrivalsWellFormed(procs, q[m..])
  {
    forall i, j | 0 <= i < j < |q[m..]|
      ensures ArrivalBefore(q[m..][i], q[m..][j])
    {
      assert q[m..][i] == q[m + i] && q[m..][j] == q[m + j];
    }
    forall i | 0 <= i < |q| - m
      ensures Listed(procs, q[m..][i])
    {
      assert Listed(procs, q[m + i]);
    }
  }

  lemma AdmittedRunEntries(procs: seq<Process>, q: seq<Process>, m: nat, t: int)
    requires ArrivalsWellFormed(procs, q)
    requires m <= |q| && forall j :: 0 <= j < m ==> q[j].arrivalTime <= t
    ensures RunEntriesOk(procs, t, Fresh(q[..m]))
  {
    var r := Fresh(q[..m]);
    forall j | 0 <= j < m
      ensures RunEntryOk(procs, t, r[j])
    {
      assert r[j] == FreshEntry(q[j]) && Listed(procs, q[j]);
    }
  }

  lemma AdmittedHrrnEntries(procs: seq<Process>, q: seq<Process>, m: nat, t: int)
    requires ArrivalsWellFormed(procs, q) && NoneOverdue(q, t) && t >= 0
    requires m <= |q| && forall j :: 0 <= j < m ==> q[j].arrivalTime <= t
    ensures HrrnEntriesOk(procs, t, HrrnFresh(q[..m]))
  {
    var r := HrrnFresh(q[..m]);
    forall j | 0 <= j < m
      ensures HrrnEntryOk(procs, t, r[j])
    {
      assert r[j] == HrrnEntry(q[j].id, 0, q[j].serviceTime) && Listed(procs, q[j]) && NotOverdue(q[j], t);
    }
  }

  lemma BackDatedHrrnEntries(procs: seq<Process>, q: seq<Process>, m: nat, t: int)
    requires ArrivalsWellFormed(procs, q) && NoneBefore(q, 0)
    requires m <= |q| && forall j :: 0 <= j < m ==> q[j].arrivalTime <= t
    ensures HrrnEntriesOk(procs, t, HrrnBackDated(q[..m], t))
  {
    var r := HrrnBackDated(q[..m], t);
    forall j | 0 <= j < m
      ensures HrrnEntryOk(procs, t, r[j])
    {
      assert r[j] == HrrnEntry(q[j].id, t - q[j].arrivalTime, q[j].serviceTime) && Listed(procs, q[j]) && NotBefore(q[j], 0);
    }
  }

  /** What `addArrivedProcesses` leaves behind: only processes arriving after `t`. */
  lemma AdmitArrived(procs: seq<Process>, q: seq<Process>, t: int)
    requires ArrivalsWellFormed(procs, q)
    ensures NoneBefore(q[ArrivedCount(q, t)..], t + 1)
    ensures NoneBefore(q[ArrivedCount(q, t)..], t)
  {
    ArrivedCountSorted(q, t);
    var n := ArrivedCount(q, t);
    forall i | 0 <= i < |q| - n
      ensures NotBefore(q[n..][i], t + 1) && NotBefore(q[n..][i], t)
    {
      assert q[n..][i] == q[n + i];
    }
  }

  /** What admitting the processes that have arrived by `t` to a RR, STRF or
      MLFQ queue leaves behind: a well-formed arrival queue of processes that
      arrive later, and ready entries that are well formed at `t`. */
  lemma AdmittedRun(procs: seq<Process>, q: seq<Process>, t: int)
    requires ArrivalsWellFormed(procs, q)
    ensures var n := ArrivedCount(q, t);
            && ArrivalsWellFormed(procs, q[n..])
            && NoneBefore(q[n..], t)
            && RunEntriesOk(procs, t, Fresh(q[..n]))
  {
    var n := ArrivedCount(q, t);
    SuffixWellFormed(procs, q, n);
    AdmittedRunEntries(procs, q, n, t);
    AdmitArrived(procs, q, t);
  }

  lemma AdmittedHrrn(procs: seq<Process>, q: seq<Process>, t: int)
    requires ArrivalsWellFormed(procs, q) && NoneBefore(q, 0)
    ensures var n := ArrivedCount(q, t);
            && ArrivalsWellFormed(procs, q[n..])
            && NoneBefore(q[n..], t)
            && HrrnEntriesOk(procs, t, HrrnBackDated(q[..n], t))
  {
    var n := ArrivedCount(q, t);
    SuffixWellFormed(procs, q, n);
    BackDatedHrrnEntries(procs, q, n, t);
    AdmitArrived(procs, q, t);
  }

  lemma RunEntriesLater(procs: seq<Process>, t: int, t': int, q: seq<RunEntry>)
    requires RunEntriesOk(procs, t, q) && t <= t'
    ensures RunEntriesOk(procs, t', q)
  {
    forall i | 0 <= i < |q|
      ensures RunEntryOk(procs, t', q[i])
    {
      assert RunEntryOk(procs, t, q[i]);
    }
  }

  lemma RunEntriesConcat(procs: seq<Process>, t: int, a: seq<RunEntry>, b: seq<RunEntry>)
    requires RunEntriesOk(procs, t, a) && RunEntriesOk(procs, t, b)
    ensures RunEntriesOk(procs, t, a + b)
  {
    forall i | 0 <= i < |a + b|
      ensures RunEntryOk(procs, t, (a + b)[i])
    {
      if i < |a| {
        assert RunEntryOk(procs, t, a[i]);
      } else {
        assert RunEntryOk(procs, t, b[i - |a|]);
      }
    }
  }

  lemma HrrnEntriesConcat(procs: seq<Process>, t: int, a: seq<HrrnEntry>, b: seq<HrrnEntry>)
    requires HrrnEntriesOk(procs, t, a) && HrrnEntriesOk(procs, t, b)
    ensures HrrnEntriesOk(procs, t, a + b)
  {
    forall i | 0 <= i < |a + b|
      ensures HrrnEntryOk(procs, t, (a + b)[i])
    {
      if i < |a| {
        assert HrrnEntryOk(procs, t, a[i]);
      } else {
        assert HrrnEntryOk(procs, t, b[i - |a|]);
      }
    }
  }

  lemma NoneBeforeEarlier(q: seq<Process>, t: int, t': int)
    requires NoneBefore(q, t) && t' <= t
    ensures NoneBefore(q, t')
  {
    forall i | 0 <= i < |q|
      ensures NotBefore(q[i], t')
    {
      assert NotBefore(q[i], t);
    }
  }

  /** Every ready HRRN entry has a positive service time, so its response ratio is defined. */
  lemma HrrnEntriesPositive(procs: seq<Process>, t: int, q: seq<HrrnEntry>)
    requires HrrnEntriesOk(procs, t, q)
    ensures forall i :: 0 <= i < |q| ==> q[i].serviceTime > 0
  {
    forall i | 0 <= i < |q|
      ensures q[i].serviceTime > 0
    {
      assert HrrnEntryOk(procs, t, q[i]);
    }
  }

  lemma RunEntriesPositive(procs: seq<Process>, t: int, q: seq<RunEntry>)
    requires RunEntriesOk(procs, t, q)
    ensures TotalWork(q) >= 0
    ensures q != [] ==> TotalWork(q) > 0
  {
    forall i | 0 <= i < |q|
      ensures q[i].remainingTime > 0
    {
      assert RunEntryOk(procs, t, q[i]);
    }
    TotalWorkPositive(q);
  }

  lemma {:induction false} FreshPositive(procs: seq<Process>, q: seq<Process>)
    requires ArrivalsWellFormed(procs, q)
    ensures TotalWork(Fresh(q)) >= 0
    ensures q != [] ==> TotalWork(Fresh(q)) > 0
  {
    forall i | 0 <= i < |q|
      ensures Fresh(q)[i].remainingTime > 0
    {
      assert Listed(procs, q[i]);
    }
    TotalWorkPositive(Fresh(q));
  }

  // ---------------------------------------------------------------------------
  // The work owed, over all queues

  /** The queues of a run as values: the pending arrivals, the three FIFO or
      priority queues of RR, STRF and MLFQ, and the HRRN queue. */
  datatype Pending = Pending(
    arrivals: seq<Process>,
    first: seq<RunEntry>,
    second: seq<RunEntry>,
    third: seq<RunEntry>,
    hrrn: seq<HrrnEntry>)

  /** Work still owed to process `id`: a pending arrival owes its whole service
      time, a ready entry its remaining time. */
  ghost function Owed(s: Pending, id: int): int
  {
    Work(Fresh(s.arrivals), id) + Work(s.first, id) + Work(s.second, id) + Work(s.third, id) + Work(HrrnWork(s.hrrn), id)
  }

  /** Work still owed to all processes: the first half of the loop's termination measure. */
  ghost function WorkLeft(s: Pending): int
  {
    TotalWork(Fresh(s.arrivals)) + TotalWork(s.first) + TotalWork(s.second) + TotalWork(s.third) + TotalWork(HrrnWork(s.hrrn))
  }

  ghost function OwedTable(n: nat, s: Pending): (t: seq<int>)
    ensures |t| == n && forall i {:trigger t[i]} :: 0 <= i < n ==> t[i] == Owed(s, i)
  {
    seq(n, i => Owed(s, i))
  }

  /** Entries that all still need work leave a non-negative amount of work. */
  lemma WorkLeftNonNegative(procs: seq<Process>, t: int, s: Pending)
    requires ArrivalsWellFormed(procs, s.arrivals)
    requires RunEntriesOk(procs, t, s.first) && RunEntriesOk(procs, t, s.second) && RunEntriesOk(procs, t, s.third)
    requires HrrnEntriesOk(procs, t, s.hrrn)
    ensures WorkLeft(s) >= 0
  {
    FreshPositive(procs, s.arrivals);
    RunEntriesPositive(procs, t, s.first);
    RunEntriesPositive(procs, t, s.second);
    RunEntriesPositive(procs, t, s.third);
    forall i | 0 <= i < |s.hrrn|
      ensures HrrnWork(s.hrrn)[i].remainingTime > 0
    {
      assert HrrnEntryOk(procs, t, s.hrrn[i]);
    }
    TotalWorkPositive(HrrnWork(s.hrrn));
  }

  /** Once every queue is empty nothing is owed. */
  lemma NothingOwed(n: nat, s: Pending)
    requires s == Pending([], [], [], [], [])
    ensures forall i | 0 <= i < n :: OwedTable(n, s)[i] == 0
  {
    assert Fresh([]) == [] && HrrnWork([]) == [];
  }
}
