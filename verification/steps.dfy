/** One step of the simulation loop as a function of the state before it:
    the jump over an idle gap, the admission of arrived processes, and the
    burst of each policy. The lemmas show that every step keeps the loop's
    invariant and makes progress towards the end of the run. */
module Steps {
  import opened Processes
  import opened Timeline
  import opened Arrivals
  import opened ReadyQueues
  import opened Ledger

  /** Which scheduler runs, with its quanta. */
  datatype Policy =
    | HighestResponseRatio
    | RoundRobin(quantum: int)
    | ShortestRemaining
    | MultiLevelFeedback(firstQuantum: int, secondQuantum: int)

  /** What the input layer checks of the quanta. */
  predicate PolicyOk(policy: Policy)
  {
    match policy
    case RoundRobin(q) => q > 0
    case MultiLevelFeedback(q1, q2) => q1 > 0 && q2 > 0
    case _ => true
  }

  /** Each policy uses only its own queues. */
  predicate Shape(policy: Policy, q: Pending)
  {
    && (policy.HighestResponseRatio? ==> q.first == [])
    && (!policy.HighestResponseRatio? ==> q.hrrn == [])
    && (!policy.MultiLevelFeedback? ==> q.second == [] && q.third == [])
  }

  /** The loop's invariant apart from the ledger, for the clock `t`, the Gantt
      trace `trace` and the queues `q` between two steps: the clock is the end
      of the trace, the trace is well formed and names only input processes
      and idle gaps, and the queues hold what they should. */
  ghost predicate Consistent(procs: seq<Process>, policy: Policy, t: int, trace: seq<Entry>, q: Pending)
  {
    && WellFormedInput(procs)
    && PolicyOk(policy)
    && Shape(policy, q)
    && 0 <= t == Total(trace)
    && WellFormed(trace)
    && PidsWithin(trace, |procs|)
    && QueuesReady(procs, t, q)
  }

  /** The queues hold what they should at time `t`: listed processes in
      arrival order, none of them overdue, and ready entries for processes
      that have arrived and still need work. */
  ghost predicate QueuesReady(procs: seq<Process>, t: int, q: Pending)
  {
    && ArrivalsWellFormed(procs, q.arrivals)
    && NoneOverdue(q.arrivals, t)
    && TiersOk(procs, t, q)
    && HrrnEntriesOk(procs, t, q.hrrn)
  }

  /** The loop's invariant: the state is consistent and the ledger balances. */
  ghost predicate Invariant(procs: seq<Process>, policy: Policy, t: int, trace: seq<Entry>, q: Pending)
  {
    Consistent(procs, policy, t, trace, q) && Balanced(procs, trace, OwedTable(|procs|, q))
  }

  /** Every queue is empty: the state in which the loop stops. */
  predicate Drained(q: Pending)
  {
    q == Pending([], [], [], [], [])
  }

  /** The queues are well formed at time `t` and no pending process is in its past. */
  ghost predicate QueuesOk(procs: seq<Process>, t: int, q: Pending)
  {
    && ArrivalsWellFormed(procs, q.arrivals)
    && NoneBefore(q.arrivals, t)
    && TiersOk(procs, t, q)
    && HrrnEntriesOk(procs, t, q.hrrn)
  }

  lemma QueuesOkReady(procs: seq<Process>, t: int, q: Pending)
    requires QueuesOk(procs, t, q)
    ensures QueuesReady(procs, t, q)
  {
    NoneBeforeNotOverdue(q.arrivals, t);
  }

  /** The queues `after` owe process `j` exactly `b` units less than `before`,
      and every other process the same. */
  ghost predicate OwesLess(after: Pending, before: Pending, j: int, b: int)
  {
    forall id :: Owed(after, id) == Owed(before, id) - (if j == id then b else 0)
  }

  /** The owed tables of queues related by `OwesLess`, entry by entry. */
  lemma OwedTableLess(procs: seq<Process>, before: Pending, after: Pending, j: int, b: int)
    requires OwesLess(after, before, j, b)
    ensures forall i | 0 <= i < |procs| :: OwedTable(|procs|, after)[i] == OwedTable(|procs|, before)[i] - (if i == j then b else 0)
  {
    forall i | 0 <= i < |procs|
      ensures OwedTable(|procs|, after)[i] == OwedTable(|procs|, before)[i] - (if i == j then b else 0)
    {
      assert Owed(after, i) == Owed(before, i) - (if j == i then b else 0);
    }
  }

  /** A pending process that is not in the past of `t` is not overdue at `t`. */
  lemma NoneBeforeNotOverdue(q: seq<Process>, t: int)
    requires NoneBefore(q, t)
    ensures NoneOverdue(q, t)
  {
    forall i | 0 <= i < |q|
      ensures NotOverdue(q[i], t)
    {
      assert NotBefore(q[i], t);
    }
  }

  /** All three tiers hold entries that are well formed at `t`. */
  ghost predicate TiersOk(procs: seq<Process>, t: int, q: Pending)
  {
    RunEntriesOk(procs, t, q.first) && RunEntriesOk(procs, t, q.second) && RunEntriesOk(procs, t, q.third)
  }

  /** The parts of the invariant that every burst relies on. */
  lemma InvariantParts(procs: seq<Process>, policy: Policy, t: int, trace: seq<Entry>, q: Pending)
    requires Invariant(procs, policy, t, trace, q)
    ensures ArrivalsWellFormed(procs, q.arrivals) && Shape(policy, q) && t >= 0 && PolicyOk(policy)
    ensures TiersOk(procs, t, q) && HrrnEntriesOk(procs, t, q.hrrn) && PidsWithin(trace, |procs|)
  {
  }

  /** The state before the loop keeps the invariant: nothing has run, no
      process is ready, and the arrival queue owes every process its service time. */
  lemma InitialInvariant(procs: seq<Process>, policy: Policy, arrivals: seq<Process>)
    requires WellFormedInput(procs) && PolicyOk(policy) && ArrivalsWellFormed(procs, arrivals)
    requires forall i | 0 <= i < |procs| :: Work(Fresh(arrivals), i) == procs[i].serviceTime
    ensures Invariant(procs, policy, 0, [], Pending(arrivals, [], [], [], []))
  {
    var q := Pending(arrivals, [], [], [], []);
    assert HrrnWork([]) == [];
    forall i | 0 <= i < |arrivals|
      ensures NotOverdue(arrivals[i], 0)
    {
    }
    forall i | 0 <= i < |procs|
      ensures Busy([], i) + OwedTable(|procs|, q)[i] == procs[i].serviceTime
    {
    }
  }

  /** What a run of `b` units of process `j` from `t0` must establish about the
      queues `q` before it and `r` after it: `j` had arrived, the new queues
      are well formed at the end of the run, and they owe `j` exactly `b`
      units less and everybody else the same. */
  ghost predicate StepOk(procs: seq<Process>, policy: Policy, t0: int, q: Pending, j: int, b: int, r: Pending)
  {
    && 0 <= j < |procs| && procs[j].arrivalTime <= t0 && b >= 0
    && Shape(policy, r) && QueuesOk(procs, t0 + b, r)
    && OwesLess(r, q, j, b) && WorkLeft(r) == WorkLeft(q) - b
  }

  /** A run of `b` units of process `j` that meets `StepOk` keeps the state
      consistent once the Gantt chart records it and the clock moves on. */
  lemma RunKeepsConsistent(procs: seq<Process>, policy: Policy, t: int, trace: seq<Entry>, q: Pending, j: int, b: int, r: Pending)
    requires Consistent(procs, policy, t, trace, q) && StepOk(procs, policy, t, q, j, b, r)
    ensures Consistent(procs, policy, t + b, Added(trace, Entry(j, b)), r)
  {
    AddedTotal(trace, Entry(j, b));
    AddedPids(trace, Entry(j, b), |procs|);
    QueuesOkReady(procs, t + b, r);
  }

  /** ... and keeps the ledger balanced. */
  lemma RunKeepsBalance(procs: seq<Process>, policy: Policy, t: int, trace: seq<Entry>, q: Pending, j: int, b: int, r: Pending)
    requires Consistent(procs, policy, t, trace, q) && StepOk(procs, policy, t, q, j, b, r)
    requires Balanced(procs, trace, OwedTable(|procs|, q))
    ensures Balanced(procs, Added(trace, Entry(j, b)), OwedTable(|procs|, r))
  {
    OwedTableLess(procs, q, r, j, b);
    RunStep(procs, trace, OwedTable(|procs|, q), OwedTable(|procs|, r), j, b);
  }

  /** Hence such a run keeps the invariant. */
  lemma RunKeepsInvariant(procs: seq<Process>, policy: Policy, t: int, trace: seq<Entry>, q: Pending, j: int, b: int, r: Pending)
    requires Invariant(procs, policy, t, trace, q) && StepOk(procs, policy, t, q, j, b, r)
    ensures Invariant(procs, policy, t + b, Added(trace, Entry(j, b)), r)
    ensures NoneBefore(r.arrivals, t + b) && WorkLeft(r) == WorkLeft(q) - b
  {
    RunKeepsConsistent(procs, policy, t, trace, q, j, b, r);
    RunKeepsBalance(procs, policy, t, trace, q, j, b, r);
  }

  /** The work of a queue splits into that of its head and that of the rest. */
  lemma WorkHead(s: seq<RunEntry>)
    requires s != []
    ensures forall id :: Work(s, id) == (if s[0].id == id then s[0].remainingTime else 0) + Work(s[1..], id)
    ensures TotalWork(s) == s[0].remainingTime + TotalWork(s[1..])
  {
  }

  /** Taking the head off a ready queue, later on, leaves well-formed entries,
      and the head had arrived. */
  lemma PoppedEntriesOk(procs: seq<Process>, t0: int, t: int, s: seq<RunEntry>)
    requires RunEntriesOk(procs, t0, s) && t0 <= t && s != []
    ensures RunEntriesOk(procs, t, s[1..])
    ensures 0 <= s[0].id < |procs| && procs[s[0].id].arrivalTime <= t0 && s[0].remainingTime > 0
  {
    assert RunEntryOk(procs, t0, s[0]);
    forall i | 0 <= i < |s| - 1
      ensures RunEntryOk(procs, t, s[1..][i])
    {
      assert RunEntryOk(procs, t0, s[i + 1]);
    }
  }

  /** Appending what is left of an arrived process keeps a ready queue well formed. */
  lemma RejoinedEntriesOk(procs: seq<Process>, t: int, s: seq<RunEntry>, head: RunEntry, b: int)
    requires RunEntriesOk(procs, t, s) && b <= head.remainingTime
    requires 0 <= head.id < |procs| && procs[head.id].arrivalTime <= t
    ensures RunEntriesOk(procs, t, s + Rejoin(head, b))
  {
    var r := s + Rejoin(head, b);
    forall i | 0 <= i < |r|
      ensures RunEntryOk(procs, t, r[i])
    {
      if i < |s| {
        assert RunEntryOk(procs, t, s[i]);
      }
    }
  }

  // ---------------------------------------------------------------------------
  // Bursts under a quantum

  /** A burst under a quantum: the whole remaining time if it fits, the quantum otherwise. */
  function Slice(remaining: int, quantum: int): (b: int)
    ensures b <= remaining && b <= quantum
    ensures b == remaining || b == quantum
  {
    if remaining <= quantum then remaining else quantum
  }

  /** What a burst of `b` units leaves of entry `e`: the entry with `b` units
      less to run, or nothing once it has finished. */
  function Rejoin(e: RunEntry, b: int): (r: seq<RunEntry>)
    requires b <= e.remainingTime
    ensures forall id :: Work(r, id) == if e.id == id then e.remainingTime - b else 0
    ensures TotalWork(r) == e.remainingTime - b
    ensures forall i :: 0 <= i < |r| ==> r[i].id == e.id && r[i].remainingTime > 0
  {
    if e.remainingTime > b then
      assert [RunEntry(e.id, e.remainingTime - b)][1..] == [];
      [RunEntry(e.id, e.remainingTime - b)]
    else
      []
  }

  // ---------------------------------------------------------------------------
  // Admission

  /** `addArrivedProcesses` of RR, STRF and MLFQ: the processes at the head of
      the arrival queue that have arrived by `t` join the (first) ready queue
      with their whole service time to run. */
  function AdmitFirst(q: Pending, t: int): Pending
  {
    q.(arrivals := StillToArrive(q.arrivals, t), first := q.first + Fresh(Arrived(q.arrivals, t)))
  }

  /** `addArrivedProcesses` of HRRN: the arrived processes join with no waiting time. */
  function AdmitHrrn(q: Pending, t: int): Pending
  {
    q.(arrivals := StillToArrive(q.arrivals, t), hrrn := q.hrrn + HrrnFresh(Arrived(q.arrivals, t)))
  }

  /** `addArrivedProcesses` under `policy`. */
  function Admit(policy: Policy, q: Pending, t: int): Pending
  {
    if policy.HighestResponseRatio? then AdmitHrrn(q, t) else AdmitFirst(q, t)
  }

  /** Admission moves work from the arrival queue to a ready queue: nobody is
      owed more or less, and the total does not change. */
  lemma AdmitFirstOwed(q: Pending, t: int)
    ensures forall id :: Owed(AdmitFirst(q, t), id) == Owed(q, id)
    ensures WorkLeft(AdmitFirst(q, t)) == WorkLeft(q)
  {
    var n := ArrivedCount(q.arrivals, t);
    ArrivalSplit(q.arrivals, t);
    WorkSplit(q.arrivals, n);
    WorkConcat(q.first, Fresh(q.arrivals[..n]));
  }

  /** The same for HRRN's admission. */
  lemma AdmitHrrnOwed(q: Pending, t: int)
    ensures forall id :: Owed(AdmitHrrn(q, t), id) == Owed(q, id)
    ensures WorkLeft(AdmitHrrn(q, t)) == WorkLeft(q)
  {
    var n := ArrivedCount(q.arrivals, t);
    ArrivalSplit(q.arrivals, t);
    WorkSplit(q.arrivals, n);
    HrrnWorkConcat(q.hrrn, HrrnFresh(q.arrivals[..n]));
    WorkConcat(HrrnWork(q.hrrn), Fresh(q.arrivals[..n]));
  }

  /** After admission at `t` every pending process arrives after `t`, the
      other queues are unchanged, and the admitted entries are well formed at `t`. */
  lemma AdmitFirstKeeps(procs: seq<Process>, q: Pending, t: int)
    requires ArrivalsWellFormed(procs, q.arrivals)
    ensures var r := AdmitFirst(q, t);
            && ArrivalsWellFormed(procs, r.arrivals)
            && NoneBefore(r.arrivals, t + 1)
            && r.second == q.second && r.third == q.third && r.hrrn == q.hrrn
            && (RunEntriesOk(procs, t, q.first) ==> RunEntriesOk(procs, t, r.first))
  {
    var n := ArrivedCount(q.arrivals, t);
    ArrivalSplit(q.arrivals, t);
    AdmitPrefix(procs, q.arrivals, n, t);
    AdmitArrived(procs, q.arrivals, t);
  }

  /** The same for HRRN's admission. */
  lemma AdmitHrrnKeeps(procs: seq<Process>, q: Pending, t: int)
    requires ArrivalsWellFormed(procs, q.arrivals)
    ensures var r := AdmitHrrn(q, t);
            && ArrivalsWellFormed(procs, r.arrivals)
            && NoneBefore(r.arrivals, t + 1)
            && r.first == q.first && r.second == q.second && r.third == q.third
            && (HrrnEntriesOk(procs, t, q.hrrn) && NoneOverdue(q.arrivals, t) && t >= 0 ==>
                  HrrnEntriesOk(procs, t, r.hrrn))
  {
    var n := ArrivedCount(q.arrivals, t);
    ArrivalSplit(q.arrivals, t);
    AdmitPrefix(procs, q.arrivals, n, t);
    AdmitArrived(procs, q.arrivals, t);
  }

  /** Admission at the current time keeps the invariant, and leaves only
      processes that arrive strictly later. */
  lemma AdmitInvariant(procs: seq<Process>, policy: Policy, t: int, trace: seq<Entry>, q: Pending)
    requires Invariant(procs, policy, t, trace, q)
    ensures var r := Admit(policy, q, t);
            && Invariant(procs, policy, t, trace, r)
            && NoneBefore(r.arrivals, t + 1)
            && WorkLeft(r) == WorkLeft(q)
  {
    var r := Admit(policy, q, t);
    ArrivalSplit(q.arrivals, t);
    if policy.HighestResponseRatio? {
      AdmitHrrnKeeps(procs, q, t);
      AdmitHrrnOwed(q, t);
    } else {
      AdmitFirstKeeps(procs, q, t);
      AdmitFirstOwed(q, t);
    }
    assert OwedTable(|procs|, r) == OwedTable(|procs|, q);
  }

  // ---------------------------------------------------------------------------
  // The jump over an idle gap

  /** With every ready queue empty, `jumpToNextArrivalTime` records an idle
      interval up to the next arrival, which must not be in the past, and moves
      the clock there; the state stays consistent and the next arrival is due. */
  lemma JumpConsistent(procs: seq<Process>, policy: Policy, t: int, trace: seq<Entry>, q: Pending)
    requires Consistent(procs, policy, t, trace, q)
    requires q.arrivals != [] && q.arrivals[0].arrivalTime >= t
    requires q.first == [] && q.second == [] && q.third == [] && q.hrrn == []
    ensures var next := q.arrivals[0].arrivalTime;
            && Consistent(procs, policy, next, Added(trace, Entry(Idle, next - t)), q)
            && ArrivedCount(q.arrivals, next) > 0
  {
    var next := q.arrivals[0].arrivalTime;
    IdleAdded(trace, next - t, |procs|);
    HeadDue(procs, q);
  }

  /** An idle interval of non-negative length keeps the trace well formed and
      its pids those of idle time or the input, and ends it that much later. */
  lemma IdleAdded(trace: seq<Entry>, d: int, n: int)
    requires WellFormed(trace) && PidsWithin(trace, n) && d >= 0
    ensures var trace' := Added(trace, Entry(Idle, d));
            Total(trace') == Total(trace) + d && WellFormed(trace') && PidsWithin(trace', n)
  {
    AddedTotal(trace, Entry(Idle, d));
    AddedPids(trace, Entry(Idle, d), n);
  }

  /** With every ready queue empty, the queues hold what they should at the
      next arrival time: no process in a sorted arrival queue is overdue then. */
  lemma HeadDue(procs: seq<Process>, q: Pending)
    requires ArrivalsWellFormed(procs, q.arrivals) && q.arrivals != [] && q.arrivals[0].arrivalTime >= 0
    requires q.first == [] && q.second == [] && q.third == [] && q.hrrn == []
    ensures QueuesReady(procs, q.arrivals[0].arrivalTime, q)
  {
    var arr := q.arrivals;
    forall j | 0 <= j < |arr|
      ensures NotOverdue(arr[j], arr[0].arrivalTime)
    {
      assert j == 0 || ArrivalBefore(arr[0], arr[j]);
    }
  }

  /** The jump keeps the invariant: an idle interval changes nobody's ledger. */
  lemma JumpInvariant(procs: seq<Process>, policy: Policy, t: int, trace: seq<Entry>, q: Pending)
    requires Invariant(procs, policy, t, trace, q)
    requires q.arrivals != [] && q.arrivals[0].arrivalTime >= t
    requires q.first == [] && q.second == [] && q.third == [] && q.hrrn == []
    ensures var next := q.arrivals[0].arrivalTime;
            && Invariant(procs, policy, next, Added(trace, Entry(Idle, next - t)), q)
            && ArrivedCount(q.arrivals, next) > 0
  {
    JumpConsistent(procs, policy, t, trace, q);
    IdleStep(procs, trace, OwedTable(|procs|, q), q.arrivals[0].arrivalTime - t);
  }

  // ---------------------------------------------------------------------------
  // RR

  /** The queues after RR's burst of `b` units ending at `t`: the head of the
      ready queue has run, the processes that arrived meanwhile join the
      queue, and then what is left of the head joins behind them. */
  function RoundRobinQueues(q: Pending, t: int, b: int): Pending
    requires q.first != [] && b <= q.first[0].remainingTime
  {
    Pending(StillToArrive(q.arrivals, t), q.first[1..] + Fresh(Arrived(q.arrivals, t)) + Rejoin(q.first[0], b), q.second, q.third, q.hrrn)
  }

  /** RR's burst as the source performs it: take the head off, admit, then
      append what is left of the head. */
  lemma RoundRobinAdmits(q: Pending, t: int, b: int)
    requires q.first != [] && b <= q.first[0].remainingTime
    ensures var r := AdmitFirst(q.(first := q.first[1..]), t);
            RoundRobinQueues(q, t, b) == r.(first := r.first + Rejoin(q.first[0], b))
  {
  }

  /** RR's burst owes the process it ran `b` units less, and nobody else anything different. */
  lemma RoundRobinOwed(q: Pending, t: int, b: int)
    requires q.first != [] && b <= q.first[0].remainingTime
    ensures OwesLess(RoundRobinQueues(q, t, b), q, q.first[0].id, b)
    ensures WorkLeft(RoundRobinQueues(q, t, b)) == WorkLeft(q) - b
  {
    var head := q.first[0];
    var n := ArrivedCount(q.arrivals, t);
    ArrivalSplit(q.arrivals, t);
    var arrived := Fresh(q.arrivals[..n]);
    var r := RoundRobinQueues(q, t, b);
    WorkHead(q.first);
    WorkSplit(q.arrivals, n);
    WorkConcat(q.first[1..], arrived);
    WorkConcat(q.first[1..] + arrived, Rejoin(head, b));
    forall id
      ensures Owed(r, id) == Owed(q, id) - (if head.id == id then b else 0)
    {
      assert Work(r.first, id) == Work(q.first[1..], id) + Work(arrived, id) + Work(Rejoin(head, b), id);
    }
  }

  /** The queues after RR's burst are well formed at its end, and the process it ran had arrived. */
  lemma RoundRobinEntries(procs: seq<Process>, policy: Policy, q: Pending, t0: int, b: int)
    requires ArrivalsWellFormed(procs, q.arrivals) && Shape(policy, q) && policy.RoundRobin?
    requires TiersOk(procs, t0, q)
    requires q.first != [] && 0 <= b <= q.first[0].remainingTime
    ensures var r := RoundRobinQueues(q, t0 + b, b);
            && Shape(policy, r) && QueuesOk(procs, t0 + b, r)
            && 0 <= q.first[0].id < |procs| && procs[q.first[0].id].arrivalTime <= t0
  {
    var t := t0 + b;
    var n := ArrivedCount(q.arrivals, t);
    ArrivalSplit(q.arrivals, t);
    PoppedEntriesOk(procs, t0, t, q.first);
    AdmittedRun(procs, q.arrivals, t);
    RunEntriesConcat(procs, t, q.first[1..], Fresh(q.arrivals[..n]));
    RejoinedEntriesOk(procs, t, q.first[1..] + Fresh(q.arrivals[..n]), q.first[0], b);
  }

  /** What RR's burst of `b` units from `t0` establishes about the queues
      after it, from the queues before it alone: they are well formed at the
      end of the burst, and they owe the process that ran `b` units less. */
  lemma RoundRobinPremises(procs: seq<Process>, policy: Policy, q: Pending, t0: int, b: int)
    requires ArrivalsWellFormed(procs, q.arrivals) && Shape(policy, q) && policy.RoundRobin?
    requires TiersOk(procs, t0, q)
    requires q.first != [] && 0 <= b <= q.first[0].remainingTime
    ensures StepOk(procs, policy, t0, q, q.first[0].id, b, RoundRobinQueues(q, t0 + b, b))
  {
    RoundRobinEntries(procs, policy, q, t0, b);
    RoundRobinOwed(q, t0 + b, b);
  }

  /** RR's burst of positive length keeps the invariant, leaves no pending
      process in the past, and lowers the work left by its length. */
  lemma RoundRobinStepInvariant(procs: seq<Process>, policy: Policy, t: int, trace: seq<Entry>, q: Pending, b: int)
    requires Invariant(procs, policy, t, trace, q) && policy.RoundRobin?
    requires q.first != [] && 0 < b <= q.first[0].remainingTime
    ensures var r := RoundRobinQueues(q, t + b, b);
            && Invariant(procs, policy, t + b, Added(trace, Entry(q.first[0].id, b)), r)
            && NoneBefore(r.arrivals, t + b)
            && WorkLeft(r) == WorkLeft(q) - b
  {
    InvariantParts(procs, policy, t, trace, q);
    RoundRobinPremises(procs, policy, q, t, b);
    RunKeepsInvariant(procs, policy, t, trace, q, q.first[0].id, b, RoundRobinQueues(q, t + b, b));
  }

  // ---------------------------------------------------------------------------
  // MLFQ

  /** The queues after MLFQ's burst of `b` units from its first tier ending at
      `t`: the processes that arrived meanwhile join the first tier, and what
      is left of the head moves down to the second. */
  function FirstTierQueues(q: Pending, t: int, b: int): Pending
    requires q.first != [] && b <= q.first[0].remainingTime
  {
    Pending(StillToArrive(q.arrivals, t), q.first[1..] + Fresh(Arrived(q.arrivals, t)), q.second + Rejoin(q.first[0], b), q.third, q.hrrn)
  }

  /** The queues after a burst of `b` units from the second tier: what is left
      of the head moves down to the third. */
  function SecondTierQueues(q: Pending, t: int, b: int): Pending
    requires q.second != [] && b <= q.second[0].remainingTime
  {
    Pending(StillToArrive(q.arrivals, t), q.first + Fresh(Arrived(q.arrivals, t)), q.second[1..], q.third + Rejoin(q.second[0], b), q.hrrn)
  }

  /** The queues after the head of the third tier has run to completion. */
  function ThirdTierQueues(q: Pending, t: int): Pending
    requires q.third != []
  {
    Pending(StillToArrive(q.arrivals, t), q.first + Fresh(Arrived(q.arrivals, t)), q.second, q.third[1..], q.hrrn)
  }

  /** MLFQ's bursts as the source performs them: take the head off its tier,
      admit, then move what is left of it down a tier. */
  lemma FirstTierAdmits(q: Pending, t: int, b: int)
    requires q.first != [] && b <= q.first[0].remainingTime
    ensures var r := AdmitFirst(q.(first := q.first[1..]), t);
            FirstTierQueues(q, t, b) == r.(second := r.second + Rejoin(q.first[0], b))
  {
  }

  lemma SecondTierAdmits(q: Pending, t: int, b: int)
    requires q.second != [] && b <= q.second[0].remainingTime
    ensures var r := AdmitFirst(q.(second := q.second[1..]), t);
            SecondTierQueues(q, t, b) == r.(third := r.third + Rejoin(q.second[0], b))
  {
  }

  lemma ThirdTierAdmits(q: Pending, t: int)
    requires q.third != []
    ensures ThirdTierQueues(q, t) == AdmitFirst(q.(third := q.third[1..]), t)
  {
  }

  /** MLFQ's burst from its first tier owes the process it ran `b` units less. */
  lemma FirstTierOwed(q: Pending, t: int, b: int)
    requires q.first != [] && b <= q.first[0].remainingTime
    ensures OwesLess(FirstTierQueues(q, t, b), q, q.first[0].id, b)
    ensures WorkLeft(FirstTierQueues(q, t, b)) == WorkLeft(q) - b
  {
    var head := q.first[0];
    var n := ArrivedCount(q.arrivals, t);
    ArrivalSplit(q.arrivals, t);
    var arrived := Fresh(q.arrivals[..n]);
    var r := FirstTierQueues(q, t, b);
    WorkHead(q.first);
    WorkSplit(q.arrivals, n);
    WorkConcat(q.first[1..], arrived);
    WorkConcat(q.second, Rejoin(head, b));
    forall id
      ensures Owed(r, id) == Owed(q, id) - (if head.id == id then b else 0)
    {
      assert Work(r.first, id) == Work(q.first[1..], id) + Work(arrived, id);
      assert Work(r.second, id) == Work(q.second, id) + Work(Rejoin(head, b), id);
    }
  }

  /** MLFQ's burst from its second tier owes the process it ran `b` units less. */
  lemma SecondTierOwed(q: Pending, t: int, b: int)
    requires q.second != [] && b <= q.second[0].remainingTime
    ensures OwesLess(SecondTierQueues(q, t, b), q, q.second[0].id, b)
    ensures WorkLeft(SecondTierQueues(q, t, b)) == WorkLeft(q) - b
  {
    var head := q.second[0];
    var n := ArrivedCount(q.arrivals, t);
    ArrivalSplit(q.arrivals, t);
    var arrived := Fresh(q.arrivals[..n]);
    var r := SecondTierQueues(q, t, b);
    WorkHead(q.second);
    WorkSplit(q.arrivals, n);
    WorkConcat(q.first, arrived);
    WorkConcat(q.third, Rejoin(head, b));
    forall id
      ensures Owed(r, id) == Owed(q, id) - (if head.id == id then b else 0)
    {
      assert Work(r.first, id) == Work(q.first, id) + Work(arrived, id);
      assert Work(r.third, id) == Work(q.third, id) + Work(Rejoin(head, b), id);
    }
  }

  /** MLFQ's burst from its third tier owes the process it ran nothing more. */
  lemma ThirdTierOwed(q: Pending, t: int)
    requires q.third != []
    ensures OwesLess(ThirdTierQueues(q, t), q, q.third[0].id, q.third[0].remainingTime)
    ensures WorkLeft(ThirdTierQueues(q, t)) == WorkLeft(q) - q.third[0].remainingTime
  {
    var head := q.third[0];
    var n := ArrivedCount(q.arrivals, t);
    ArrivalSplit(q.arrivals, t);
    var arrived := Fresh(q.arrivals[..n]);
    var r := ThirdTierQueues(q, t);
    WorkHead(q.third);
    WorkSplit(q.arrivals, n);
    WorkConcat(q.first, arrived);
    forall id
      ensures Owed(r, id) == Owed(q, id) - (if head.id == id then head.remainingTime else 0)
    {
      assert Work(r.first, id) == Work(q.first, id) + Work(arrived, id);
    }
  }

  /** The queues after MLFQ's burst from its first tier are well formed at its end. */
  lemma FirstTierEntries(procs: seq<Process>, policy: Policy, q: Pending, t0: int, b: int)
    requires ArrivalsWellFormed(procs, q.arrivals) && Shape(policy, q) && policy.MultiLevelFeedback?
    requires TiersOk(procs, t0, q)
    requires q.first != [] && 0 <= b <= q.first[0].remainingTime
    ensures var r := FirstTierQueues(q, t0 + b, b);
            && Shape(policy, r) && QueuesOk(procs, t0 + b, r)
            && 0 <= q.first[0].id < |procs| && procs[q.first[0].id].arrivalTime <= t0
  {
    var t := t0 + b;
    var n := ArrivedCount(q.arrivals, t);
    ArrivalSplit(q.arrivals, t);
    PoppedEntriesOk(procs, t0, t, q.first);
    RunEntriesLater(procs, t0, t, q.second);
    RunEntriesLater(procs, t0, t, q.third);
    AdmittedRun(procs, q.arrivals, t);
    RunEntriesConcat(procs, t, q.first[1..], Fresh(q.arrivals[..n]));
    RejoinedEntriesOk(procs, t, q.second, q.first[0], b);
  }

  /** What MLFQ's burst of `b` units from its first tier establishes about the
      queues after it. */
  lemma FirstTierPremises(procs: seq<Process>, policy: Policy, q: Pending, t0: int, b: int)
    requires ArrivalsWellFormed(procs, q.arrivals) && Shape(policy, q) && policy.MultiLevelFeedback?
    requires TiersOk(procs, t0, q)
    requires q.first != [] && 0 <= b <= q.first[0].remainingTime
    ensures StepOk(procs, policy, t0, q, q.first[0].id, b, FirstTierQueues(q, t0 + b, b))
  {
    FirstTierEntries(procs, policy, q, t0, b);
    FirstTierOwed(q, t0 + b, b);
  }

  /** The queues after MLFQ's burst from its second tier are well formed at its end. */
  lemma SecondTierEntries(procs: seq<Process>, policy: Policy, q: Pending, t0: int, b: int)
    requires ArrivalsWellFormed(procs, q.arrivals) && Shape(policy, q) && policy.MultiLevelFeedback?
    requires TiersOk(procs, t0, q)
    requires q.second != [] && 0 <= b <= q.second[0].remainingTime
    ensures var r := SecondTierQueues(q, t0 + b, b);
            && Shape(policy, r) && QueuesOk(procs, t0 + b, r)
            && 0 <= q.second[0].id < |procs| && procs[q.second[0].id].arrivalTime <= t0
  {
    var t := t0 + b;
    var n := ArrivedCount(q.arrivals, t);
    ArrivalSplit(q.arrivals, t);
    PoppedEntriesOk(procs, t0, t, q.second);
    RunEntriesLater(procs, t0, t, q.first);
    RunEntriesLater(procs, t0, t, q.third);
    AdmittedRun(procs, q.arrivals, t);
    RunEntriesConcat(procs, t, q.first, Fresh(q.arrivals[..n]));
    RejoinedEntriesOk(procs, t, q.third, q.second[0], b);
  }

  /** The same for a burst from the second tier. */
  lemma SecondTierPremises(procs: seq<Process>, policy: Policy, q: Pending, t0: int, b: int)
    requires ArrivalsWellFormed(procs, q.arrivals) && Shape(policy, q) && policy.MultiLevelFeedback?
    requires TiersOk(procs, t0, q)
    requires q.second != [] && 0 <= b <= q.second[0].remainingTime
    ensures StepOk(procs, policy, t0, q, q.second[0].id, b, SecondTierQueues(q, t0 + b, b))
  {
    SecondTierEntries(procs, policy, q, t0, b);
    SecondTierOwed(q, t0 + b, b);
  }

  /** The queues after MLFQ's burst from its third tier are well formed at its end. */
  lemma ThirdTierEntries(procs: seq<Process>, policy: Policy, q: Pending, t0: int)
    requires ArrivalsWellFormed(procs, q.arrivals) && Shape(policy, q) && policy.MultiLevelFeedback?
    requires TiersOk(procs, t0, q) && q.third != []
    ensures var r := ThirdTierQueues(q, t0 + q.third[0].remainingTime);
            && Shape(policy, r) && QueuesOk(procs, t0 + q.third[0].remainingTime, r)
            && 0 <= q.third[0].id < |procs| && procs[q.third[0].id].arrivalTime <= t0
            && q.third[0].remainingTime > 0
  {
    assert RunEntryOk(procs, t0, q.third[0]);
    var t := t0 + q.third[0].remainingTime;
    var n := ArrivedCount(q.arrivals, t);
    ArrivalSplit(q.arrivals, t);
    PoppedEntriesOk(procs, t0, t, q.third);
    RunEntriesLater(procs, t0, t, q.first);
    RunEntriesLater(procs, t0, t, q.second);
    AdmittedRun(procs, q.arrivals, t);
    RunEntriesConcat(procs, t, q.first, Fresh(q.arrivals[..n]));
  }

  /** The same for a burst from the third tier, which has positive length. */
  lemma ThirdTierPremises(procs: seq<Process>, policy: Policy, q: Pending, t0: int)
    requires ArrivalsWellFormed(procs, q.arrivals) && Shape(policy, q) && policy.MultiLevelFeedback?
    requires TiersOk(procs, t0, q) && q.third != []
    ensures StepOk(procs, policy, t0, q, q.third[0].id, q.third[0].remainingTime, ThirdTierQueues(q, t0 + q.third[0].remainingTime))
    ensures q.third[0].remainingTime > 0
  {
    ThirdTierEntries(procs, policy, q, t0);
    ThirdTierOwed(q, t0 + q.third[0].remainingTime);
  }

  /** MLFQ's burst of positive length from its first tier keeps the invariant,
      leaves no pending process in the past, and lowers the work left by its length. */
  lemma FirstTierStepInvariant(procs: seq<Process>, policy: Policy, t: int, trace: seq<Entry>, q: Pending, b: int)
    requires Invariant(procs, policy, t, trace, q) && policy.MultiLevelFeedback?
    requires q.first != [] && 0 < b <= q.first[0].remainingTime
    ensures var r := FirstTierQueues(q, t + b, b);
            && Invariant(procs, policy, t + b, Added(trace, Entry(q.first[0].id, b)), r)
            && NoneBefore(r.arrivals, t + b)
            && WorkLeft(r) == WorkLeft(q) - b
  {
    InvariantParts(procs, policy, t, trace, q);
    FirstTierPremises(procs, policy, q, t, b);
    RunKeepsInvariant(procs, policy, t, trace, q, q.first[0].id, b, FirstTierQueues(q, t + b, b));
  }

  /** The same for a burst from the second tier. */
  lemma SecondTierStepInvariant(procs: seq<Process>, policy: Policy, t: int, trace: seq<Entry>, q: Pending, b: int)
    requires Invariant(procs, policy, t, trace, q) && policy.MultiLevelFeedback?
    requires q.second != [] && 0 < b <= q.second[0].remainingTime
    ensures var r := SecondTierQueues(q, t + b, b);
            && Invariant(procs, policy, t + b, Added(trace, Entry(q.second[0].id, b)), r)
            && NoneBefore(r.arrivals, t + b)
            && WorkLeft(r) == WorkLeft(q) - b
  {
    InvariantParts(procs, policy, t, trace, q);
    SecondTierPremises(procs, policy, q, t, b);
    RunKeepsInvariant(procs, policy, t, trace, q, q.second[0].id, b, SecondTierQueues(q, t + b, b));
  }

  /** The same for the third tier, whose head runs to completion. */
  lemma ThirdTierStepInvariant(procs: seq<Process>, policy: Policy, t: int, trace: seq<Entry>, q: Pending)
    requires Invariant(procs, policy, t, trace, q) && policy.MultiLevelFeedback? && q.third != []
    ensures var b := q.third[0].remainingTime; var r := ThirdTierQueues(q, t + b);
            && Invariant(procs, policy, t + b, Added(trace, Entry(q.third[0].id, b)), r)
            && NoneBefore(r.arrivals, t + b)
            && WorkLeft(r) == WorkLeft(q) - b
            && b > 0
  {
    InvariantParts(procs, policy, t, trace, q);
    ThirdTierPremises(procs, policy, q, t);
    RunKeepsInvariant(procs, policy, t, trace, q, q.third[0].id, q.third[0].remainingTime, ThirdTierQueues(q, t + q.third[0].remainingTime));
  }

  // ---------------------------------------------------------------------------
  // STRF

  /** Whether STRF's entry `head` runs to completion from `t`: no arrival is
      pending before it would finish. */
  predicate RunsToCompletion(q: Pending, t: int, head: RunEntry)
  {
    q.arrivals == [] || q.arrivals[0].arrivalTime > t + head.remainingTime
  }

  /** The length of STRF's burst of the entry at `k` from `t`: its whole
      remaining time, or up to the next arrival if that comes no later. */
  function StrfBurst(q: Pending, t: int, k: nat): int
    requires k < |q.first|
  {
    if RunsToCompletion(q, t, q.first[k]) then q.first[k].remainingTime else q.arrivals[0].arrivalTime - t
  }

  /** The queues after STRF's burst of the entry at `k` from `t`: when it is cut
      short by an arrival, that arrival alone is admitted; then what is left of
      the entry goes back in. */
  function StrfQueues(q: Pending, t: int, k: nat): Pending
    requires k < |q.first|
  {
    var head := q.first[k];
    var rest := RemoveAt(q.first, k);
    var b := StrfBurst(q, t, k);
    if RunsToCompletion(q, t, head) then
      q.(first := rest + Rejoin(head, b))
    else
      q.(arrivals := q.arrivals[1..], first := rest + [FreshEntry(q.arrivals[0])] + Rejoin(head, b))
  }

  /** Admitting the head of the arrival queue on its own leaves everybody's work unchanged. */
  lemma AdmitHeadOwed(q: Pending, e: seq<RunEntry>)
    requires q.arrivals != []
    ensures var q' := q.(arrivals := q.arrivals[1..], first := q.first + [FreshEntry(q.arrivals[0])] + e);
            && (forall id :: Owed(q', id) == Owed(q.(first := q.first + e), id))
            && WorkLeft(q') == WorkLeft(q.(first := q.first + e))
  {
    var p0 := q.arrivals[0];
    WorkCons(p0, q.arrivals[1..]);
    assert q.arrivals == [p0] + q.arrivals[1..];
    assert [FreshEntry(p0)][1..] == [];
    WorkConcat(q.first, [FreshEntry(p0)]);
    WorkConcat(q.first + [FreshEntry(p0)], e);
    WorkConcat(q.first, e);
    forall id
      ensures Work([FreshEntry(p0)], id) == if p0.id == id then p0.serviceTime else 0
    {
      assert Work([FreshEntry(p0)], id) == (if p0.id == id then p0.serviceTime else 0) + Work([FreshEntry(p0)][1..], id);
    }
    assert TotalWork([FreshEntry(p0)]) == p0.serviceTime + TotalWork([FreshEntry(p0)][1..]);
  }

  /** What an STRF burst owes: only the running process, and the length of the burst less. */
  lemma StrfOwed(q: Pending, t: int, k: nat)
    requires k < |q.first|
    requires !RunsToCompletion(q, t, q.first[k]) ==> q.arrivals[0].arrivalTime >= t
    ensures OwesLess(StrfQueues(q, t, k), q, q.first[k].id, StrfBurst(q, t, k))
    ensures WorkLeft(StrfQueues(q, t, k)) == WorkLeft(q) - StrfBurst(q, t, k)
  {
    var head := q.first[k];
    var rest := RemoveAt(q.first, k);
    var b := StrfBurst(q, t, k);
    WorkRemoveAt(q.first, k);
    WorkConcat(rest, Rejoin(head, b));
    if !RunsToCompletion(q, t, head) {
      AdmitHeadOwed(q.(first := rest), Rejoin(head, b));
    }
  }

  /** An STRF entry taken out of the queue was in it. */
  lemma RemovedEntriesOk(procs: seq<Process>, t0: int, t: int, q: seq<RunEntry>, k: nat)
    requires RunEntriesOk(procs, t0, q) && t0 <= t && k < |q|
    ensures RunEntriesOk(procs, t, RemoveAt(q, k))
    ensures 0 <= q[k].id < |procs| && procs[q[k].id].arrivalTime <= t && q[k].remainingTime > 0
  {
    assert RunEntryOk(procs, t0, q[k]);
    var r := RemoveAt(q, k);
    forall i | 0 <= i < |r|
      ensures RunEntryOk(procs, t, r[i])
    {
      if i < k {
        assert RunEntryOk(procs, t0, q[i]);
      } else {
        assert RunEntryOk(procs, t0, q[i + 1]);
      }
    }
  }

  /** When the running STRF entry finishes first, every pending process arrives after it finishes. */
  lemma CompletionArrivals(q: Pending, t: int, head: RunEntry)
    requires Sorted(q.arrivals) && RunsToCompletion(q, t, head)
    ensures NoneBefore(q.arrivals, t + head.remainingTime + 1)
  {
    var arr := q.arrivals;
    forall j | 0 <= j < |arr|
      ensures NotBefore(arr[j], t + head.remainingTime + 1)
    {
      assert j == 0 || ArrivalBefore(arr[0], arr[j]);
    }
  }

  /** When a process arrives before the running STRF entry finishes, the ones
      after it arrive no earlier. */
  lemma PreemptionArrivals(procs: seq<Process>, arr: seq<Process>)
    requires ArrivalsWellFormed(procs, arr) && arr != []
    ensures ArrivalsWellFormed(procs, arr[1..])
    ensures NoneBefore(arr[1..], arr[0].arrivalTime)
  {
    SuffixWellFormed(procs, arr, 1);
    forall j | 0 <= j < |arr| - 1
      ensures NotBefore(arr[1..][j], arr[0].arrivalTime)
    {
      assert ArrivalBefore(arr[0], arr[j + 1]);
    }
  }

  /** The queues after an STRF burst are well formed at its end; the burst
      takes no time only when it admits a process. */
  lemma StrfEntries(procs: seq<Process>, q: Pending, t: int, k: nat)
    requires ArrivalsWellFormed(procs, q.arrivals) && NoneBefore(q.arrivals, t)
    requires RunEntriesOk(procs, t, q.first) && k < |q.first|
    requires q.second == [] && q.third == [] && q.hrrn == []
    ensures var b := StrfBurst(q, t, k);
            var r := StrfQueues(q, t, k);
            && b >= 0
            && QueuesOk(procs, t + b, r)
            && r.second == [] && r.third == [] && r.hrrn == []
            && (b > 0 || |r.arrivals| < |q.arrivals|)
            && 0 <= q.first[k].id < |procs| && procs[q.first[k].id].arrivalTime <= t
  {
    var head := q.first[k];
    var rest := RemoveAt(q.first, k);
    var b := StrfBurst(q, t, k);
    assert RunEntryOk(procs, t, head);
    if RunsToCompletion(q, t, head) {
      RemovedEntriesOk(procs, t, t + b, q.first, k);
      RejoinedEntriesOk(procs, t + b, rest, head, b);
      CompletionArrivals(q, t, head);
      NoneBeforeEarlier(q.arrivals, t + b + 1, t + b);
      assert StrfQueues(q, t, k) == q.(first := rest + Rejoin(head, b));
    } else {
      var p0 := q.arrivals[0];
      assert NotBefore(p0, t) && Listed(procs, p0);
      RemovedEntriesOk(procs, t, t + b, q.first, k);
      assert RunEntryOk(procs, t + b, FreshEntry(p0));
      RunEntriesConcat(procs, t + b, rest, [FreshEntry(p0)]);
      RejoinedEntriesOk(procs, t + b, rest + [FreshEntry(p0)], head, b);
      PreemptionArrivals(procs, q.arrivals);
      assert StrfQueues(q, t, k) == q.(arrivals := q.arrivals[1..], first := rest + [FreshEntry(p0)] + Rejoin(head, b));
    }
  }

  lemma StrfPremises(procs: seq<Process>, policy: Policy, q: Pending, t: int, k: nat)
    requires ArrivalsWellFormed(procs, q.arrivals) && NoneBefore(q.arrivals, t) && t >= 0
    requires Shape(policy, q) && policy.ShortestRemaining? && TiersOk(procs, t, q) && k < |q.first|
    ensures StepOk(procs, policy, t, q, q.first[k].id, StrfBurst(q, t, k), StrfQueues(q, t, k))
    ensures StrfBurst(q, t, k) > 0 || |StrfQueues(q, t, k).arrivals| < |q.arrivals|
  {
    if q.arrivals != [] {
      assert NotBefore(q.arrivals[0], t);
    }
    StrfOwed(q, t, k);
    StrfEntries(procs, q, t, k);
  }

  /** An STRF burst keeps the invariant and makes progress: the clock moves on
      by the work done, or, for a burst of length zero, one pending process is
      admitted. */
  lemma StrfStepInvariant(procs: seq<Process>, policy: Policy, t: int, trace: seq<Entry>, q: Pending, k: nat)
    requires Invariant(procs, policy, t, trace, q) && NoneBefore(q.arrivals, t)
    requires policy.ShortestRemaining? && k < |q.first|
    ensures var b := StrfBurst(q, t, k); var r := StrfQueues(q, t, k);
            && Invariant(procs, policy, t + b, Added(trace, Entry(q.first[k].id, b)), r)
            && NoneBefore(r.arrivals, t + b)
            && WorkLeft(r) == WorkLeft(q) - b
            && b >= 0
            && (b > 0 || |r.arrivals| < |q.arrivals|)
  {
    InvariantParts(procs, policy, t, trace, q);
    StrfPremises(procs, policy, q, t, k);
    RunKeepsInvariant(procs, policy, t, trace, q, q.first[k].id, StrfBurst(q, t, k), StrfQueues(q, t, k));
  }

  lemma WorkCons(p: Process, ps: seq<Process>)
    ensures forall id :: Work(Fresh([p] + ps), id) == (if p.id == id then p.serviceTime else 0) + Work(Fresh(ps), id)
    ensures TotalWork(Fresh([p] + ps)) == p.serviceTime + TotalWork(Fresh(ps))
  {
    assert Fresh([p] + ps)[1..] == Fresh(ps);
  }

  // ---------------------------------------------------------------------------
  // HRRN

  /** The queues after HRRN's burst of the entry at `k` from `t0`: it runs its
      whole service time, every other ready entry waits that much longer, and
      the processes that arrived meanwhile join with the time they have already
      waited. */
  function HrrnQueues(q: Pending, t0: int, k: nat): Pending
    requires k < |q.hrrn|
  {
    var b := q.hrrn[k].serviceTime;
    var t := t0 + b;
    q.(arrivals := StillToArrive(q.arrivals, t), hrrn := Waited(RemoveAt(q.hrrn, k), b) + HrrnBackDated(Arrived(q.arrivals, t), t))
  }

  /** What an HRRN burst owes: only the process it ran, and its service time less. */
  lemma HrrnOwed(q: Pending, t0: int, k: nat)
    requires k < |q.hrrn|
    ensures OwesLess(HrrnQueues(q, t0, k), q, q.hrrn[k].id, q.hrrn[k].serviceTime)
    ensures WorkLeft(HrrnQueues(q, t0, k)) == WorkLeft(q) - q.hrrn[k].serviceTime
  {
    var t := t0 + q.hrrn[k].serviceTime;
    var r := HrrnQueues(q, t0, k);
    assert r.arrivals == StillToArrive(q.arrivals, t) && r.first == q.first && r.second == q.second && r.third == q.third;
    assert r.hrrn == Waited(RemoveAt(q.hrrn, k), q.hrrn[k].serviceTime) + HrrnBackDated(Arrived(q.arrivals, t), t);
    HrrnQueueWork(q.hrrn, k, Arrived(q.arrivals, t), t);
    ArrivalsWork(q.arrivals, t);
  }

  /** The HRRN queue after a burst owes what it owed before, less the entry
      taken out, plus what the admitted processes owe. */
  lemma HrrnQueueWork(hq: seq<HrrnEntry>, k: nat, ps: seq<Process>, now: int)
    requires k < |hq|
    ensures var w := HrrnWork(Waited(RemoveAt(hq, k), hq[k].serviceTime) + HrrnBackDated(ps, now));
            && (forall id :: Work(w, id) == Work(HrrnWork(hq), id) - (if hq[k].id == id then hq[k].serviceTime else 0) + Work(Fresh(ps), id))
            && TotalWork(w) == TotalWork(HrrnWork(hq)) - hq[k].serviceTime + TotalWork(Fresh(ps))
  {
    var waited := Waited(RemoveAt(hq, k), hq[k].serviceTime);
    var admitted := HrrnBackDated(ps, now);
    HrrnWorkRemoveAt(hq, k);
    WorkRemoveAt(HrrnWork(hq), k);
    HrrnWorkConcat(waited, admitted);
    WorkConcat(HrrnWork(waited), HrrnWork(admitted));
  }

  /** The arrival queue owes what the arrived processes and those still to arrive owe. */
  lemma ArrivalsWork(ps: seq<Process>, t: int)
    ensures forall id :: Work(Fresh(ps), id) == Work(Fresh(Arrived(ps, t)), id) + Work(Fresh(StillToArrive(ps, t)), id)
    ensures TotalWork(Fresh(ps)) == TotalWork(Fresh(Arrived(ps, t))) + TotalWork(Fresh(StillToArrive(ps, t)))
  {
    ArrivalSplit(ps, t);
    WorkSplit(ps, ArrivedCount(ps, t));
  }

  /** The entries that stay in the HRRN queue while the entry at `k` runs
      its whole service time keep waiting times equal to the time since they
      arrived. */
  lemma WaitedEntriesOk(procs: seq<Process>, t0: int, q: seq<HrrnEntry>, k: nat)
    requires HrrnEntriesOk(procs, t0, q) && k < |q|
    ensures HrrnEntriesOk(procs, t0 + q[k].serviceTime, Waited(RemoveAt(q, k), q[k].serviceTime))
    ensures 0 <= q[k].id < |procs| && procs[q[k].id].arrivalTime <= t0 && q[k].serviceTime > 0
  {
    var b := q[k].serviceTime;
    var removed := RemoveAt(q, k);
    var waited := Waited(removed, b);
    assert HrrnEntryOk(procs, t0, q[k]);
    forall j | 0 <= j < |waited|
      ensures HrrnEntryOk(procs, t0 + b, waited[j])
    {
      if j < k {
        assert removed[j] == q[j] && HrrnEntryOk(procs, t0, q[j]);
      } else {
        assert removed[j] == q[j + 1] && HrrnEntryOk(procs, t0, q[j + 1]);
      }
    }
  }

  /** The queues after an HRRN burst are well formed at its end. */
  lemma HrrnEntries(procs: seq<Process>, q: Pending, t0: int, k: nat)
    requires ArrivalsWellFormed(procs, q.arrivals) && NoneBefore(q.arrivals, t0) && t0 >= 0
    requires HrrnEntriesOk(procs, t0, q.hrrn) && k < |q.hrrn|
    requires q.first == [] && q.second == [] && q.third == []
    ensures var b := q.hrrn[k].serviceTime;
            var r := HrrnQueues(q, t0, k);
            && b > 0
            && QueuesOk(procs, t0 + b, r)
            && r.first == [] && r.second == [] && r.third == []
            && 0 <= q.hrrn[k].id < |procs| && procs[q.hrrn[k].id].arrivalTime <= t0
  {
    var b := q.hrrn[k].serviceTime;
    var t := t0 + b;
    var n := ArrivedCount(q.arrivals, t);
    ArrivalSplit(q.arrivals, t);
    var waited := Waited(RemoveAt(q.hrrn, k), b);
    var admitted := HrrnBackDated(q.arrivals[..n], t);
    WaitedEntriesOk(procs, t0, q.hrrn, k);
    NoneBeforeEarlier(q.arrivals, t0, 0);
    AdmittedHrrn(procs, q.arrivals, t);
    HrrnEntriesConcat(procs, t, waited, admitted);
  }

  lemma HrrnPremises(procs: seq<Process>, policy: Policy, q: Pending, t0: int, k: nat)
    requires ArrivalsWellFormed(procs, q.arrivals) && NoneBefore(q.arrivals, t0) && t0 >= 0
    requires Shape(policy, q) && policy.HighestResponseRatio? && HrrnEntriesOk(procs, t0, q.hrrn) && k < |q.hrrn|
    ensures StepOk(procs, policy, t0, q, q.hrrn[k].id, q.hrrn[k].serviceTime, HrrnQueues(q, t0, k))
    ensures q.hrrn[k].serviceTime > 0
  {
    HrrnEntries(procs, q, t0, k);
    HrrnOwed(q, t0, k);
  }

  /** An HRRN burst keeps the invariant, leaves no pending process in the past,
      and lowers the work left by the service time it ran. */
  lemma HrrnStepInvariant(procs: seq<Process>, policy: Policy, t: int, trace: seq<Entry>, q: Pending, k: nat)
    requires Invariant(procs, policy, t, trace, q) && NoneBefore(q.arrivals, t)
    requires policy.HighestResponseRatio? && k < |q.hrrn|
    ensures var b := q.hrrn[k].serviceTime; var r := HrrnQueues(q, t, k);
            && Invariant(procs, policy, t + b, Added(trace, Entry(q.hrrn[k].id, b)), r)
            && NoneBefore(r.arrivals, t + b)
            && WorkLeft(r) == WorkLeft(q) - b
            && b > 0
  {
    InvariantParts(procs, policy, t, trace, q);
    HrrnPremises(procs, policy, q, t, k);
    RunKeepsInvariant(procs, policy, t, trace, q, q.hrrn[k].id, q.hrrn[k].serviceTime, HrrnQueues(q, t, k));
  }

  // ---------------------------------------------------------------------------
  // The burst of each policy

  /** The entry at `k` is the one `burst()` of `policy` runs from the queues
      `q`: HRRN's entry with the highest response ratio, STRF's entry with the
      least remaining time, and otherwise the head of a queue, for MLFQ of its
      first non-empty tier. */
  predicate Selected(policy: Policy, q: Pending, k: nat)
  {
    match policy
    case HighestResponseRatio =>
      k < |q.hrrn| && forall j :: 0 <= j < |q.hrrn| ==> HrrnBefore(q.hrrn[k], q.hrrn[j])
    case ShortestRemaining =>
      k < |q.first| && forall j :: 0 <= j < |q.first| ==> StrfBefore(q.first[k], q.first[j])
    case RoundRobin(_) => k == 0 && q.first != []
    case MultiLevelFeedback(_, _) => k == 0 && (q.first != [] || q.second != [] || q.third != [])
  }

  /** One burst: the pid that runs, for how long, and the queues it leaves. */
  datatype Run = Run(pid: int, time: int, after: Pending)

  /** The burst of `policy` from the queues `q` at time `t` that runs the
      selected entry at `k`. RR runs its head for at most one quantum. MLFQ
      serves its first tier while it holds an entry, then its second, and only
      when both are empty its third, which runs to completion. */
  function NextRun(policy: Policy, q: Pending, t: int, k: nat): Run
    requires Selected(policy, q, k)
  {
    match policy
    case HighestResponseRatio => Run(q.hrrn[k].id, q.hrrn[k].serviceTime, HrrnQueues(q, t, k))
    case ShortestRemaining => Run(q.first[k].id, StrfBurst(q, t, k), StrfQueues(q, t, k))
    case RoundRobin(quantum) =>
      var b := Slice(q.first[0].remainingTime, quantum);
      Run(q.first[0].id, b, RoundRobinQueues(q, t + b, b))
    case MultiLevelFeedback(firstQuantum, secondQuantum) =>
      if q.first != [] then
        var b := Slice(q.first[0].remainingTime, firstQuantum);
        Run(q.first[0].id, b, FirstTierQueues(q, t + b, b))
      else if q.second != [] then
        var b := Slice(q.second[0].remainingTime, secondQuantum);
        Run(q.second[0].id, b, SecondTierQueues(q, t + b, b))
      else
        var b := q.third[0].remainingTime;
        Run(q.third[0].id, b, ThirdTierQueues(q, t + b))
  }

  /** The burst `r` from the queues `q` at time `t` after the trace `trace`
      keeps the invariant and makes progress: it runs an input process, and
      lowers the work left by the time it runs or, lasting no time at all,
      admits a pending process. The trace then ends with a process running,
      unless a ready entry is left. */
  ghost predicate Progresses(procs: seq<Process>, policy: Policy, t: int, trace: seq<Entry>, q: Pending, r: Run)
  {
    && Invariant(procs, policy, t + r.time, Added(trace, Entry(r.pid, r.time)), r.after)
    && NoneBefore(r.after.arrivals, t + r.time)
    && 0 <= r.pid < |procs| && r.time >= 0
    && WorkLeft(r.after) == WorkLeft(q) - r.time
    && (r.time > 0 || |r.after.arrivals| < |q.arrivals|)
    && (EndsBusy(Added(trace, Entry(r.pid, r.time))) || r.after.first != [])
  }

  /** Every burst of every policy makes progress and keeps the invariant. */
  lemma NextRunInvariant(procs: seq<Process>, policy: Policy, t: int, trace: seq<Entry>, q: Pending, k: nat)
    requires Invariant(procs, policy, t, trace, q) && NoneBefore(q.arrivals, t) && Selected(policy, q, k)
    ensures Progresses(procs, policy, t, trace, q, NextRun(policy, q, t, k))
  {
    match policy
    case HighestResponseRatio => HrrnProgresses(procs, policy, t, trace, q, k);
    case ShortestRemaining => StrfProgresses(procs, policy, t, trace, q, k);
    case RoundRobin(_) => RoundRobinProgresses(procs, policy, t, trace, q);
    case MultiLevelFeedback(_, _) =>
      if q.first != [] {
        FirstTierProgresses(procs, policy, t, trace, q);
      } else if q.second != [] {
        SecondTierProgresses(procs, policy, t, trace, q);
      } else {
        ThirdTierProgresses(procs, policy, t, trace, q);
      }
  }

  /** A run of `b` units of process `j` that meets `StepOk` and takes time
      or admits a pending process into the ready queue makes progress. */
  lemma RunProgresses(procs: seq<Process>, policy: Policy, t: int, trace: seq<Entry>, q: Pending, j: int, b: int, r: Pending)
    requires Invariant(procs, policy, t, trace, q) && StepOk(procs, policy, t, q, j, b, r)
    requires b > 0 || (|r.arrivals| < |q.arrivals| && r.first != [])
    ensures Progresses(procs, policy, t, trace, q, Run(j, b, r))
  {
    RunKeepsInvariant(procs, policy, t, trace, q, j, b, r);
    var run := Run(j, b, r);
    assert run.pid == j && run.time == b && run.after == r;
    assert Invariant(procs, policy, t + run.time, Added(trace, Entry(run.pid, run.time)), run.after);
    if b != 0 {
      AddedPids(trace, Entry(j, b), |procs|);
      assert EndsBusy(Added(trace, Entry(j, b)));
    }
  }

  lemma HrrnProgresses(procs: seq<Process>, policy: Policy, t: int, trace: seq<Entry>, q: Pending, k: nat)
    requires Invariant(procs, policy, t, trace, q) && NoneBefore(q.arrivals, t)
    requires policy.HighestResponseRatio? && Selected(policy, q, k)
    ensures Progresses(procs, policy, t, trace, q, NextRun(policy, q, t, k))
  {
    InvariantParts(procs, policy, t, trace, q);
    HrrnPremises(procs, policy, q, t, k);
    var b := q.hrrn[k].serviceTime;
    assert NextRun(policy, q, t, k) == Run(q.hrrn[k].id, b, HrrnQueues(q, t, k));
    RunProgresses(procs, policy, t, trace, q, q.hrrn[k].id, b, HrrnQueues(q, t, k));
  }

  lemma StrfProgresses(procs: seq<Process>, policy: Policy, t: int, trace: seq<Entry>, q: Pending, k: nat)
    requires Invariant(procs, policy, t, trace, q) && NoneBefore(q.arrivals, t)
    requires policy.ShortestRemaining? && Selected(policy, q, k)
    ensures Progresses(procs, policy, t, trace, q, NextRun(policy, q, t, k))
  {
    InvariantParts(procs, policy, t, trace, q);
    StrfPremises(procs, policy, q, t, k);
    var b := StrfBurst(q, t, k);
    if b == 0 {
      assert !RunsToCompletion(q, t, q.first[k]);
    }
    assert NextRun(policy, q, t, k) == Run(q.first[k].id, b, StrfQueues(q, t, k));
    RunProgresses(procs, policy, t, trace, q, q.first[k].id, b, StrfQueues(q, t, k));
  }

  lemma RoundRobinProgresses(procs: seq<Process>, policy: Policy, t: int, trace: seq<Entry>, q: Pending)
    requires Invariant(procs, policy, t, trace, q) && policy.RoundRobin? && q.first != []
    ensures Progresses(procs, policy, t, trace, q, NextRun(policy, q, t, 0))
  {
    InvariantParts(procs, policy, t, trace, q);
    PoppedEntriesOk(procs, t, t, q.first);
    var b := Slice(q.first[0].remainingTime, policy.quantum);
    RoundRobinPremises(procs, policy, q, t, b);
    assert NextRun(policy, q, t, 0) == Run(q.first[0].id, b, RoundRobinQueues(q, t + b, b));
    RunProgresses(procs, policy, t, trace, q, q.first[0].id, b, RoundRobinQueues(q, t + b, b));
  }

  lemma FirstTierProgresses(procs: seq<Process>, policy: Policy, t: int, trace: seq<Entry>, q: Pending)
    requires Invariant(procs, policy, t, trace, q) && policy.MultiLevelFeedback? && q.first != []
    ensures Progresses(procs, policy, t, trace, q, NextRun(policy, q, t, 0))
  {
    InvariantParts(procs, policy, t, trace, q);
    PoppedEntriesOk(procs, t, t, q.first);
    var b := Slice(q.first[0].remainingTime, policy.firstQuantum);
    FirstTierPremises(procs, policy, q, t, b);
    assert NextRun(policy, q, t, 0) == Run(q.first[0].id, b, FirstTierQueues(q, t + b, b));
    RunProgresses(procs, policy, t, trace, q, q.first[0].id, b, FirstTierQueues(q, t + b, b));
  }

  lemma SecondTierProgresses(procs: seq<Process>, policy: Policy, t: int, trace: seq<Entry>, q: Pending)
    requires Invariant(procs, policy, t, trace, q) && policy.MultiLevelFeedback? && q.first == [] && q.second != []
    ensures Progresses(procs, policy, t, trace, q, NextRun(policy, q, t, 0))
  {
    InvariantParts(procs, policy, t, trace, q);
    PoppedEntriesOk(procs, t, t, q.second);
    var b := Slice(q.second[0].remainingTime, policy.secondQuantum);
    SecondTierPremises(procs, policy, q, t, b);
    assert NextRun(policy, q, t, 0) == Run(q.second[0].id, b, SecondTierQueues(q, t + b, b));
    RunProgresses(procs, policy, t, trace, q, q.second[0].id, b, SecondTierQueues(q, t + b, b));
  }

  lemma ThirdTierProgresses(procs: seq<Process>, policy: Policy, t: int, trace: seq<Entry>, q: Pending)
    requires Invariant(procs, policy, t, trace, q) && policy.MultiLevelFeedback?
    requires q.first == [] && q.second == [] && q.third != []
    ensures Progresses(procs, policy, t, trace, q, NextRun(policy, q, t, 0))
  {
    InvariantParts(procs, policy, t, trace, q);
    ThirdTierPremises(procs, policy, q, t);
    var b := q.third[0].remainingTime;
    assert NextRun(policy, q, t, 0) == Run(q.third[0].id, b, ThirdTierQueues(q, t + b));
    RunProgresses(procs, policy, t, trace, q, q.third[0].id, b, ThirdTierQueues(q, t + b));
  }

  // ---------------------------------------------------------------------------
  // The end of the run

  /** Work left is never negative, so it can measure the loop. */
  lemma InvariantWorkLeft(procs: seq<Process>, policy: Policy, t: int, trace: seq<Entry>, q: Pending)
    requires Invariant(procs, policy, t, trace, q)
    ensures WorkLeft(q) >= 0
  {
    WorkLeftNonNegative(procs, t, q);
  }

  /** When every queue is empty, every process has run for exactly its
      service time, and each one with work finished no earlier than its arrival
      plus its service time. */
  lemma DrainedSettles(procs: seq<Process>, policy: Policy, t: int, trace: seq<Entry>, q: Pending)
    requires Invariant(procs, policy, t, trace, q) && Drained(q)
    ensures forall i | 0 <= i < |procs| :: Busy(trace, i) == procs[i].serviceTime
    ensures forall i | 0 <= i < |procs| && procs[i].serviceTime > 0 ::
              FinishOf(trace, i) >= procs[i].arrivalTime + procs[i].serviceTime
  {
    NothingOwed(|procs|, q);
    LedgerSettled(procs, trace, OwedTable(|procs|, q));
  }
}
