/** The discrete-event loop of `AbstractSched` and the bursts of its four
    subclasses. One class holds the state of the base class and of whichever
    subclass the policy selects: the clock, the arrival queue, the Gantt chart,
    and the policy's ready queue or queues. Every step is specified by the
    step functions of `Steps`, whose lemmas carry the invariant. */
module Scheduling {
  import opened Processes
  import opened Timeline
  import opened Arrivals
  import opened ReadyQueues
  import opened Ledger
  import opened Steps
  import Metrics

  // ---------------------------------------------------------------------------
  // Building the arrival queue

  /** Inserting `p` into the arrival queue adds its service time to what `p.id` is owed. */
  lemma {:induction false} WorkOfInsert(q: seq<Process>, p: Process)
    requires Sorted(q)
    ensures forall id :: Work(Fresh(Insert(q, p)), id) == Work(Fresh(q), id) + (if p.id == id then p.serviceTime else 0)
  {
    if q == [] || ArrivalBefore(p, q[0]) {
      WorkCons(p, q);
    } else {
      assert Sorted(q[1..]) by {
        forall i, j | 0 <= i < j < |q[1..]|
          ensures ArrivalBefore(q[1..][i], q[1..][j])
        {
          assert q[1..][i] == q[i + 1] && q[1..][j] == q[j + 1];
        }
      }
      WorkOfInsert(q[1..], p);
      assert q == [q[0]] + q[1..];
      WorkCons(q[0], q[1..]);
      WorkCons(q[0], Insert(q[1..], p));
    }
  }

  /** A process is in the arrival queue exactly when it is an input process with some work. */
  lemma {:induction false} ScheduledMembers(ps: seq<Process>)
    ensures forall p :: p in Scheduled(ps) <==> p in ps && p.serviceTime != 0
  {
    if ps != [] {
      ScheduledMembers(ps[..|ps| - 1]);
      assert ps == ps[..|ps| - 1] + [ps[|ps| - 1]];
    }
  }

  /** One step of building the arrival queue: process `ps[i]` is added when it has work. */
  lemma ArrivalQueueStep(ps: seq<Process>, q: seq<Process>, i: nat)
    requires WellFormedInput(ps) && i < |ps|
    requires ArrivalsWellFormed(ps, q)
    requires forall j | 0 <= j < |ps| :: Work(Fresh(q), j) == if j < i then ps[j].serviceTime else 0
    ensures var q' := if ps[i].serviceTime != 0 then Insert(q, ps[i]) else q;
            && ArrivalsWellFormed(ps, q')
            && forall j | 0 <= j < |ps| :: Work(Fresh(q'), j) == if j < i + 1 then ps[j].serviceTime else 0
  {
    if ps[i].serviceTime != 0 {
      var q' := Insert(q, ps[i]);
      forall k | 0 <= k < |q'|
        ensures Listed(ps, q'[k])
      {
        assert q'[k] in multiset(q');
        if q'[k] != ps[i] {
          assert q'[k] in multiset(q);
          var m :| 0 <= m < |q| && q[m] == q'[k];
          assert Listed(ps, q[m]);
        }
      }
      WorkOfInsert(q, ps[i]);
    }
  }

  /** The constructor's `addAll(processes.filterNot { it.serviceTime == 0 })`:
      the queue holds exactly the processes with work, in arrival order, and
      owes each input process its service time. */
  method BuildArrivalQueue(ps: seq<Process>) returns (q: seq<Process>)
    requires WellFormedInput(ps)
    ensures ArrivalsWellFormed(ps, q)
    ensures multiset(q) == multiset(Scheduled(ps))
    ensures forall p :: p in q <==> p in ps && p.serviceTime != 0
    ensures forall i | 0 <= i < |ps| :: Work(Fresh(q), i) == ps[i].serviceTime
  {
    q := [];
    var i := 0;
    while i < |ps|
      invariant 0 <= i <= |ps|
      invariant ArrivalsWellFormed(ps, q)
      invariant multiset(q) == multiset(Scheduled(ps[..i]))
      invariant forall j | 0 <= j < |ps| :: Work(Fresh(q), j) == if j < i then ps[j].serviceTime else 0
    {
      ArrivalQueueStep(ps, q, i);
      ScheduledStep(ps, i);
      if ps[i].serviceTime != 0 {
        q := Insert(q, ps[i]);
      }
      i := i + 1;
    }
    assert ps[..i] == ps;
    ScheduledMembers(ps);
    SameMembers(q, Scheduled(ps));
  }

  /** The processes with work among the first `i + 1` are those among the first `i`, and `ps[i]` if it has work. */
  lemma ScheduledStep(ps: seq<Process>, i: nat)
    requires i < |ps|
    ensures multiset(Scheduled(ps[..i + 1])) == multiset(Scheduled(ps[..i])) + if ps[i].serviceTime != 0 then multiset{ps[i]} else multiset{}
  {
    assert ps[..i + 1][..i] == ps[..i];
  }

  /** Sequences with the same elements, counted, have the same members. */
  lemma SameMembers(a: seq<Process>, b: seq<Process>)
    requires multiset(a) == multiset(b)
    ensures forall p :: p in a <==> p in b
  {
    forall p
      ensures p in a <==> p in b
    {
      assert p in a <==> p in multiset(a);
      assert p in b <==> p in multiset(b);
    }
  }

  // ---------------------------------------------------------------------------
  // The scheduler

  class Scheduler {
    const policy: Policy
    /** The input processes, indexed by id. */
    ghost const procs: seq<Process>
    const gantt: Gantt
    var currentTime: int
    /** `processesArrivalQueue`, kept in (arrival time, id) order. */
    var arrivals: seq<Process>
    /** The RR queue, the STRF queue, or MLFQ's first tier. */
    var readyQueue: seq<RunEntry>
    /** MLFQ's second and third tiers. */
    var secondReadyQueue: seq<RunEntry>
    var thirdReadyQueue: seq<RunEntry>
    /** The HRRN queue. */
    var hrrnQueue: seq<HrrnEntry>

    /** Everything still to be done, as one value. */
    function Queues(): Pending
      reads this
    {
      Pending(arrivals, readyQueue, secondReadyQueue, thirdReadyQueue, hrrnQueue)
    }

    /** The invariant between two steps of the loop. */
    ghost predicate Valid()
      reads this, gantt
    {
      Invariant(procs, policy, currentTime, gantt.entries, Queues())
    }

    /** The state right after construction: nothing has run, and every process
        with work is pending. The source sizes its `PriorityQueue`s by the
        number of processes, and Java refuses a capacity of zero, so there is
        no scheduler over no processes. */
    constructor (ps: seq<Process>, policy: Policy)
      requires WellFormedInput(ps) && PolicyOk(policy) && ps != []
      ensures Valid() && fresh(gantt)
      ensures this.policy == policy && procs == ps
      ensures currentTime == 0 && gantt.entries == []
      ensures multiset(arrivals) == multiset(Scheduled(ps))
      ensures readyQueue == [] && secondReadyQueue == [] && thirdReadyQueue == [] && hrrnQueue == []
    {
      this.policy := policy;
      procs := ps;
      gantt := new Gantt();
      currentTime := 0;
      var q := BuildArrivalQueue(ps);
      InitialInvariant(ps, policy, q);
      arrivals := q;
      readyQueue := [];
      secondReadyQueue := [];
      thirdReadyQueue := [];
      hrrnQueue := [];
    }

    /** `isReadyQueueEmpty` of the running policy: with each policy using only
        its own queues, it holds exactly when no queue holds a ready entry. */
    function IsReadyQueueEmpty(): (r: bool)
      reads this
      ensures Shape(policy, Queues()) ==>
                (r <==> readyQueue == [] && secondReadyQueue == [] && thirdReadyQueue == [] && hrrnQueue == [])
    {
      match policy
      case HighestResponseRatio => hrrnQueue == []
      case MultiLevelFeedback(_, _) => readyQueue == [] && secondReadyQueue == [] && thirdReadyQueue == []
      case _ => readyQueue == []
    }

    /** HRRN's `addFreshProcessToReadyQueue(process, waitingTime)`. */
    method AddWaitingProcess(p: Process, waitingTime: int)
      modifies this`hrrnQueue
      ensures hrrnQueue == old(hrrnQueue) + [HrrnEntry(p.id, waitingTime, p.serviceTime)]
    {
      hrrnQueue := hrrnQueue + [HrrnEntry(p.id, waitingTime, p.serviceTime)];
    }

    /** `addFreshProcessToReadyQueue`: HRRN starts the process with no waiting
        time, the other policies with all of its service time to run (MLFQ in
        its first tier). */
    method AddFreshProcessToReadyQueue(p: Process)
      modifies this`readyQueue, this`hrrnQueue
      ensures policy.HighestResponseRatio? ==>
                hrrnQueue == old(hrrnQueue) + [HrrnEntry(p.id, 0, p.serviceTime)] && readyQueue == old(readyQueue)
      ensures !policy.HighestResponseRatio? ==>
                readyQueue == old(readyQueue) + [FreshEntry(p)] && hrrnQueue == old(hrrnQueue)
    {
      if policy.HighestResponseRatio? {
        AddWaitingProcess(p, 0);
      } else {
        readyQueue := readyQueue + [RunEntry(p.id, p.serviceTime)];
      }
    }

    /** `addArrivedProcesses`: admits processes from the head of the arrival
        queue while they have arrived by the current time. */
    method AddArrivedProcesses()
      modifies this`arrivals, this`readyQueue, this`hrrnQueue
      ensures Queues() == Admit(policy, old(Queues()), currentTime)
    {
      ghost var q := arrivals;
      ghost var k := 0;
      while arrivals != [] && arrivals[0].arrivalTime <= currentTime
        invariant 0 <= k <= |q| && arrivals == q[k..]
        invariant forall j :: 0 <= j < k ==> q[j].arrivalTime <= currentTime
        invariant policy.HighestResponseRatio? ==>
                    hrrnQueue == old(hrrnQueue) + HrrnFresh(q[..k]) && readyQueue == old(readyQueue)
        invariant !policy.HighestResponseRatio? ==>
                    readyQueue == old(readyQueue) + Fresh(q[..k]) && hrrnQueue == old(hrrnQueue)
        decreases |arrivals|
      {
        AdmittedOneMore(q, k, currentTime);
        var p := arrivals[0];
        arrivals := arrivals[1..];
        AddFreshProcessToReadyQueue(p);
        k := k + 1;
      }
      ArrivedCountUnique(q, currentTime, k);
      ArrivalSplit(q, currentTime);
      assert Arrived(q, currentTime) == q[..k] && StillToArrive(q, currentTime) == arrivals;
      if policy.HighestResponseRatio? {
        assert Queues() == AdmitHrrn(old(Queues()), currentTime);
      } else {
        assert Queues() == AdmitFirst(old(Queues()), currentTime);
      }
    }

    /** `addArrivedProcesses` keeps the invariant, and leaves only processes
        that arrive strictly later. */
    method AdmitPending()
      requires Valid()
      modifies this`arrivals, this`readyQueue, this`hrrnQueue
      ensures Queues() == Admit(policy, old(Queues()), currentTime)
      ensures |arrivals| == old(|arrivals|) - ArrivedCount(old(arrivals), currentTime)
      ensures Valid() && NoneBefore(arrivals, currentTime + 1)
      ensures WorkLeft(Queues()) == old(WorkLeft(Queues()))
    {
      ArrivalSplit(arrivals, currentTime);
      AdmitInvariant(procs, policy, currentTime, gantt.entries, Queues());
      AddArrivedProcesses();
    }

    /** `jumpToNextArrivalTime` with the next arrival looked at rather than
        taken out, so that the admission that follows takes it in. Fails,
        changing nothing, when the next arrival is in the past. */
    method JumpToNextArrivalTime() returns (ok: bool)
      requires arrivals != []
      modifies this`currentTime, gantt
      ensures ok <==> old(arrivals[0].arrivalTime) >= old(currentTime)
      ensures ok ==> && currentTime == arrivals[0].arrivalTime
                     && gantt.entries == Added(old(gantt.entries), Entry(Idle, currentTime - old(currentTime)))
      ensures !ok ==> currentTime == old(currentTime) && gantt.entries == old(gantt.entries)
    {
      var nextArrivalTime := arrivals[0].arrivalTime;
      if nextArrivalTime < currentTime {
        ok := false;
      } else {
        gantt.Add(Idle, nextArrivalTime - currentTime);
        currentTime := nextArrivalTime;
        ok := true;
      }
    }

    /** `jumpToNextArrivalTime` as the source has it: the next arrival is taken
        out of the arrival queue and never admitted, so the work it needs leaves
        the run without being done. */
    method JumpToNextArrivalTimeAsWritten() returns (ok: bool)
      requires arrivals != []
      modifies this`arrivals, this`currentTime, gantt
      ensures arrivals == old(arrivals[1..])
      ensures ok <==> old(arrivals[0].arrivalTime) >= old(currentTime)
      ensures ok ==> && currentTime == old(arrivals[0].arrivalTime)
                     && gantt.entries == Added(old(gantt.entries), Entry(Idle, currentTime - old(currentTime)))
      ensures !ok ==> currentTime == old(currentTime) && gantt.entries == old(gantt.entries)
      ensures forall id :: Owed(Queues(), id) ==
                old(Owed(Queues(), id)) - (if old(arrivals[0].id) == id then old(arrivals[0].serviceTime) else 0)
    {
      var nextArrivalProcess := arrivals[0];
      WorkCons(nextArrivalProcess, arrivals[1..]);
      assert arrivals == [nextArrivalProcess] + arrivals[1..];
      arrivals := arrivals[1..];
      var nextArrivalTime := nextArrivalProcess.arrivalTime;
      if nextArrivalTime < currentTime {
        ok := false;
      } else {
        gantt.Add(Idle, nextArrivalTime - currentTime);
        currentTime := nextArrivalTime;
        ok := true;
      }
    }

    // -------------------------------------------------------------------------
    // Bursts

    /** HRRN's `readyQueue.toList().onEach { it.waitingTime += s }`, put back
        into the queue: every entry has waited `s` more units. */
    method WaitAll(s: int)
      modifies this`hrrnQueue
      ensures hrrnQueue == Waited(old(hrrnQueue), s)
    {
      var updated := [];
      var i := 0;
      while i < |hrrnQueue|
        invariant 0 <= i <= |hrrnQueue|
        invariant updated == Waited(hrrnQueue[..i], s)
      {
        updated := updated + [hrrnQueue[i].(waitingTime := hrrnQueue[i].waitingTime + s)];
        i := i + 1;
      }
      assert hrrnQueue[..i] == hrrnQueue;
      hrrnQueue := updated;
    }

    /** The end of HRRN's burst: the processes that arrived during it join the
        queue credited with the time they have already waited. */
    method AddArrivedWaiting()
      modifies this`arrivals, this`hrrnQueue
      ensures arrivals == StillToArrive(old(arrivals), currentTime)
      ensures hrrnQueue == old(hrrnQueue) + HrrnBackDated(Arrived(old(arrivals), currentTime), currentTime)
    {
      ghost var arr := arrivals;
      ghost var m := 0;
      while arrivals != [] && arrivals[0].arrivalTime <= currentTime
        invariant 0 <= m <= |arr| && arrivals == arr[m..]
        invariant forall j :: 0 <= j < m ==> arr[j].arrivalTime <= currentTime
        invariant hrrnQueue == old(hrrnQueue) + HrrnBackDated(arr[..m], currentTime)
        decreases |arrivals|
      {
        AdmittedOneMore(arr, m, currentTime);
        var toAddProcess := arrivals[0];
        arrivals := arrivals[1..];
        AddWaitingProcess(toAddProcess, currentTime - toAddProcess.arrivalTime);
        m := m + 1;
      }
      ArrivedCountUnique(arr, currentTime, m);
      ArrivalSplit(arr, currentTime);
    }

    /** HRRN's burst: the entry with the highest response ratio runs its whole
        service time, the others wait that much longer, and the processes that
        arrived meanwhile join with the time they have already waited. */
    method HrrnBurst() returns (k: nat)
      requires policy.HighestResponseRatio? && hrrnQueue != []
      requires forall i :: 0 <= i < |hrrnQueue| ==> hrrnQueue[i].serviceTime > 0
      modifies this, gantt
      ensures k < |old(hrrnQueue)|
      ensures forall j :: 0 <= j < |old(hrrnQueue)| ==> HrrnBefore(old(hrrnQueue)[k], old(hrrnQueue)[j])
      ensures var b := old(hrrnQueue)[k].serviceTime;
              && currentTime == old(currentTime) + b
              && gantt.entries == Added(old(gantt.entries), Entry(old(hrrnQueue)[k].id, b))
              && Queues() == old(Queues()).(arrivals := StillToArrive(old(arrivals), currentTime),
                                            hrrn := Waited(RemoveAt(old(hrrnQueue), k), b)
                                                    + HrrnBackDated(Arrived(old(arrivals), currentTime), currentTime))
    {
      k := IndexOfHighestRatio(hrrnQueue);
      var toRunProcess := hrrnQueue[k];
      hrrnQueue := RemoveAt(hrrnQueue, k);
      gantt.Add(toRunProcess.id, toRunProcess.serviceTime);
      currentTime := currentTime + toRunProcess.serviceTime;
      WaitAll(toRunProcess.serviceTime);
      AddArrivedWaiting();
    }

    /** RR's burst: the head of the queue runs for at most one quantum; the
        processes that arrived meanwhile join the queue before the preempted
        process goes back to its tail. */
    method RoundRobinBurst()
      requires policy.RoundRobin? && readyQueue != []
      modifies this, gantt
      ensures var head := old(readyQueue[0]);
              var b := Slice(head.remainingTime, policy.quantum);
              && currentTime == old(currentTime) + b
              && gantt.entries == Added(old(gantt.entries), Entry(head.id, b))
              && var r := AdmitFirst(old(Queues()).(first := old(readyQueue[1..])), currentTime);
                 Queues() == r.(first := r.first + Rejoin(head, b))
    {
      var toRunProcess := readyQueue[0];
      readyQueue := readyQueue[1..];
      ghost var q1 := Queues();
      var burstTime := if toRunProcess.remainingTime <= policy.quantum then toRunProcess.remainingTime else policy.quantum;
      gantt.Add(toRunProcess.id, burstTime);
      currentTime := currentTime + burstTime;
      var rest := RunEntry(toRunProcess.id, toRunProcess.remainingTime - burstTime);
      AddArrivedProcesses();
      ghost var r := AdmitFirst(q1, currentTime);
      assert Queues() == r;
      if rest.remainingTime > 0 {
        readyQueue := readyQueue + [rest];
      }
      assert Queues() == r.(first := r.first + Rejoin(toRunProcess, burstTime));
    }

    /** STRF's burst: the entry with the least remaining time runs until it
        finishes, or until the next arrival, which it then admits. */
    method ShortestRemainingBurst() returns (k: nat)
      requires policy.ShortestRemaining? && readyQueue != []
      modifies this, gantt
      ensures k < |old(readyQueue)|
      ensures forall j :: 0 <= j < |old(readyQueue)| ==> StrfBefore(old(readyQueue)[k], old(readyQueue)[j])
      ensures var b := StrfBurst(old(Queues()), old(currentTime), k);
              && currentTime == old(currentTime) + b
              && gantt.entries == Added(old(gantt.entries), Entry(old(readyQueue)[k].id, b))
              && Queues() == StrfQueues(old(Queues()), old(currentTime), k)
    {
      ghost var q0 := Queues();
      ghost var t0 := currentTime;
      k := IndexOfShortest(readyQueue);
      var toRunProcess := readyQueue[k];
      readyQueue := RemoveAt(readyQueue, k);
      var predictedFinishTime := currentTime + toRunProcess.remainingTime;
      var burstTime;
      if arrivals == [] || arrivals[0].arrivalTime > predictedFinishTime {
        burstTime := toRunProcess.remainingTime;
      } else {
        var nextArrival := arrivals[0];
        arrivals := arrivals[1..];
        AddFreshProcessToReadyQueue(nextArrival);
        burstTime := nextArrival.arrivalTime - currentTime;
      }
      gantt.Add(toRunProcess.id, burstTime);
      currentTime := currentTime + burstTime;
      if toRunProcess.remainingTime - burstTime > 0 {
        readyQueue := readyQueue + [RunEntry(toRunProcess.id, toRunProcess.remainingTime - burstTime)];
      }
      assert Queues() == StrfQueues(q0, t0, k);
    }

    /** MLFQ's burst from its first tier: at most the first quantum, then the
        arrivals join the first tier and what is left moves down to the second. */
    method FirstTierBurst()
      requires policy.MultiLevelFeedback? && readyQueue != []
      modifies this, gantt
      ensures var head := old(readyQueue[0]);
              var b := Slice(head.remainingTime, policy.firstQuantum);
              && currentTime == old(currentTime) + b
              && gantt.entries == Added(old(gantt.entries), Entry(head.id, b))
              && var r := AdmitFirst(old(Queues()).(first := old(readyQueue[1..])), currentTime);
                 Queues() == r.(second := r.second + Rejoin(head, b))
    {
      var toRunProcess := readyQueue[0];
      readyQueue := readyQueue[1..];
      ghost var q1 := Queues();
      var burstTime := if toRunProcess.remainingTime <= policy.firstQuantum then toRunProcess.remainingTime else policy.firstQuantum;
      gantt.Add(toRunProcess.id, burstTime);
      currentTime := currentTime + burstTime;
      var rest := RunEntry(toRunProcess.id, toRunProcess.remainingTime - burstTime);
      AddArrivedProcesses();
      ghost var r := AdmitFirst(q1, currentTime);
      assert Queues() == r;
      if rest.remainingTime > 0 {
        secondReadyQueue := secondReadyQueue + [rest];
      }
      assert Queues() == r.(second := r.second + Rejoin(toRunProcess, burstTime));
    }

    /** MLFQ's burst from its second tier: at most the second quantum, then
        what is left moves down to the third. */
    method SecondTierBurst()
      requires policy.MultiLevelFeedback? && readyQueue == [] && secondReadyQueue != []
      modifies this, gantt
      ensures var head := old(secondReadyQueue[0]);
              var b := Slice(head.remainingTime, policy.secondQuantum);
              && currentTime == old(currentTime) + b
              && gantt.entries == Added(old(gantt.entries), Entry(head.id, b))
              && var r := AdmitFirst(old(Queues()).(second := old(secondReadyQueue[1..])), currentTime);
                 Queues() == r.(third := r.third + Rejoin(head, b))
    {
      var toRunProcess := secondReadyQueue[0];
      secondReadyQueue := secondReadyQueue[1..];
      ghost var q1 := Queues();
      var burstTime := if toRunProcess.remainingTime <= policy.secondQuantum then toRunProcess.remainingTime else policy.secondQuantum;
      gantt.Add(toRunProcess.id, burstTime);
      currentTime := currentTime + burstTime;
      var rest := RunEntry(toRunProcess.id, toRunProcess.remainingTime - burstTime);
      AddArrivedProcesses();
      ghost var r := AdmitFirst(q1, currentTime);
      assert Queues() == r;
      if rest.remainingTime > 0 {
        thirdReadyQueue := thirdReadyQueue + [rest];
      }
      assert Queues() == r.(third := r.third + Rejoin(toRunProcess, burstTime));
    }

    /** MLFQ's burst from its third tier: the head runs to completion. */
    method ThirdTierBurst()
      requires policy.MultiLevelFeedback? && readyQueue == [] && secondReadyQueue == [] && thirdReadyQueue != []
      modifies this, gantt
      ensures var head := old(thirdReadyQueue[0]);
              && currentTime == old(currentTime) + head.remainingTime
              && gantt.entries == Added(old(gantt.entries), Entry(head.id, head.remainingTime))
              && Queues() == AdmitFirst(old(Queues()).(third := old(thirdReadyQueue[1..])), currentTime)
    {
      var toRunProcess := thirdReadyQueue[0];
      thirdReadyQueue := thirdReadyQueue[1..];
      ghost var q1 := Queues();
      gantt.Add(toRunProcess.id, toRunProcess.remainingTime);
      currentTime := currentTime + toRunProcess.remainingTime;
      AddArrivedProcesses();
      assert Queues() == AdmitFirst(q1, currentTime);
    }

    /** The clock has moved on by `b` from `t0`, and the Gantt chart records
        `b` units of `pid` after `trace0`. */
    ghost predicate Advanced(t0: int, trace0: seq<Entry>, pid: int, b: int)
      reads this, gantt
    {
      currentTime == t0 + b && gantt.entries == Added(trace0, Entry(pid, b))
    }

    /** The state is the one the burst `r` leaves after the clock `t0` and the trace `trace0`. */
    ghost predicate Ran(t0: int, trace0: seq<Entry>, r: Run)
      reads this, gantt
    {
      Advanced(t0, trace0, r.pid, r.time) && Queues() == r.after
    }

    /** An HRRN burst, from a state that keeps the invariant: the selected
        entry runs its whole service time and the queues become `HrrnQueues`;
        the invariant holds again and the work left is lower. */
    method HrrnStep() returns (k: nat)
      requires Valid() && NoneBefore(arrivals, currentTime) && policy.HighestResponseRatio? && hrrnQueue != []
      modifies this, gantt
      ensures Selected(policy, old(Queues()), k)
      ensures Advanced(old(currentTime), old(gantt.entries), old(hrrnQueue)[k].id, old(hrrnQueue)[k].serviceTime)
      ensures Queues() == HrrnQueues(old(Queues()), old(currentTime), k)
      ensures Ran(old(currentTime), old(gantt.entries), NextRun(policy, old(Queues()), old(currentTime), k))
      ensures Valid() && NoneBefore(arrivals, currentTime)
      ensures WorkLeft(Queues()) < old(WorkLeft(Queues()))
    {
      ghost var q0 := Queues();
      ghost var t0 := currentTime;
      ghost var trace0 := gantt.entries;
      InvariantParts(procs, policy, t0, trace0, q0);
      HrrnEntriesPositive(procs, t0, hrrnQueue);
      k := HrrnBurst();
      HrrnStepInvariant(procs, policy, t0, trace0, q0, k);
      ghost var b := q0.hrrn[k].serviceTime;
      assert currentTime == t0 + b;
      assert Queues() == HrrnQueues(q0, t0, k);
      assert gantt.entries == Added(trace0, Entry(q0.hrrn[k].id, b));
      assert NextRun(policy, q0, t0, k) == Run(q0.hrrn[k].id, b, HrrnQueues(q0, t0, k));
    }

    /** An RR burst: the head runs for at most one quantum and the queues
        become `RoundRobinQueues`; the invariant holds again and the work left
        is lower. */
    method RoundRobinStep()
      requires Valid() && policy.RoundRobin? && readyQueue != []
      modifies this, gantt
      ensures var b := Slice(old(readyQueue[0].remainingTime), policy.quantum);
              && Advanced(old(currentTime), old(gantt.entries), old(readyQueue[0].id), b)
              && Queues() == RoundRobinQueues(old(Queues()), currentTime, b)
      ensures Ran(old(currentTime), old(gantt.entries), NextRun(policy, old(Queues()), old(currentTime), 0))
      ensures Valid() && NoneBefore(arrivals, currentTime)
      ensures WorkLeft(Queues()) < old(WorkLeft(Queues()))
    {
      ghost var q0 := Queues();
      ghost var t0 := currentTime;
      ghost var trace0 := gantt.entries;
      InvariantParts(procs, policy, t0, trace0, q0);
      PoppedEntriesOk(procs, t0, t0, readyQueue);
      RoundRobinBurst();
      RoundRobinAdmits(q0, currentTime, Slice(q0.first[0].remainingTime, policy.quantum));
      RoundRobinStepInvariant(procs, policy, t0, trace0, q0, Slice(q0.first[0].remainingTime, policy.quantum));
      ghost var b := Slice(q0.first[0].remainingTime, policy.quantum);
      assert NextRun(policy, q0, t0, 0) == Run(q0.first[0].id, b, RoundRobinQueues(q0, t0 + b, b));
    }

    /** An STRF burst: the selected entry runs until it finishes or the next
        arrival and the queues become `StrfQueues`; the invariant holds again,
        and the work left is lower or, for a burst of length zero, a pending
        process has been admitted. */
    method ShortestRemainingStep() returns (k: nat)
      requires Valid() && NoneBefore(arrivals, currentTime) && policy.ShortestRemaining? && readyQueue != []
      modifies this, gantt
      ensures Selected(policy, old(Queues()), k)
      ensures Advanced(old(currentTime), old(gantt.entries), old(readyQueue)[k].id, StrfBurst(old(Queues()), old(currentTime), k))
      ensures Queues() == StrfQueues(old(Queues()), old(currentTime), k)
      ensures Ran(old(currentTime), old(gantt.entries), NextRun(policy, old(Queues()), old(currentTime), k))
      ensures Valid() && NoneBefore(arrivals, currentTime)
      ensures WorkLeft(Queues()) < old(WorkLeft(Queues()))
              || (WorkLeft(Queues()) == old(WorkLeft(Queues())) && |arrivals| < old(|arrivals|))
    {
      ghost var q0 := Queues();
      ghost var t0 := currentTime;
      ghost var trace0 := gantt.entries;
      k := ShortestRemainingBurst();
      StrfStepInvariant(procs, policy, t0, trace0, q0, k);
      assert NextRun(policy, q0, t0, k) == Run(q0.first[k].id, StrfBurst(q0, t0, k), StrfQueues(q0, t0, k));
    }

    /** A burst from MLFQ's first tier: its head runs for at most the first
        quantum and the queues become `FirstTierQueues`; the invariant holds
        again and the work left is lower. */
    method FirstTierStep()
      requires Valid() && policy.MultiLevelFeedback? && readyQueue != []
      modifies this, gantt
      ensures var b := Slice(old(readyQueue[0].remainingTime), policy.firstQuantum);
              && Advanced(old(currentTime), old(gantt.entries), old(readyQueue[0].id), b)
              && Queues() == FirstTierQueues(old(Queues()), currentTime, b)
      ensures Ran(old(currentTime), old(gantt.entries), NextRun(policy, old(Queues()), old(currentTime), 0))
      ensures Valid() && NoneBefore(arrivals, currentTime)
      ensures WorkLeft(Queues()) < old(WorkLeft(Queues()))
    {
      ghost var q0 := Queues();
      ghost var t0 := currentTime;
      ghost var trace0 := gantt.entries;
      InvariantParts(procs, policy, t0, trace0, q0);
      PoppedEntriesOk(procs, t0, t0, readyQueue);
      FirstTierBurst();
      FirstTierAdmits(q0, currentTime, Slice(q0.first[0].remainingTime, policy.firstQuantum));
      FirstTierStepInvariant(procs, policy, t0, trace0, q0, Slice(q0.first[0].remainingTime, policy.firstQuantum));
      ghost var b := Slice(q0.first[0].remainingTime, policy.firstQuantum);
      assert NextRun(policy, q0, t0, 0) == Run(q0.first[0].id, b, FirstTierQueues(q0, t0 + b, b));
    }

    /** A burst from MLFQ's second tier, once the first is empty: its head runs
        for at most the second quantum and the queues become
        `SecondTierQueues`; the invariant holds again and the work left is lower. */
    method SecondTierStep()
      requires Valid() && policy.MultiLevelFeedback? && readyQueue == [] && secondReadyQueue != []
      modifies this, gantt
      ensures var b := Slice(old(secondReadyQueue[0].remainingTime), policy.secondQuantum);
              && Advanced(old(currentTime), old(gantt.entries), old(secondReadyQueue[0].id), b)
              && Queues() == SecondTierQueues(old(Queues()), currentTime, b)
      ensures Ran(old(currentTime), old(gantt.entries), NextRun(policy, old(Queues()), old(currentTime), 0))
      ensures Valid() && NoneBefore(arrivals, currentTime)
      ensures WorkLeft(Queues()) < old(WorkLeft(Queues()))
    {
      ghost var q0 := Queues();
      ghost var t0 := currentTime;
      ghost var trace0 := gantt.entries;
      InvariantParts(procs, policy, t0, trace0, q0);
      PoppedEntriesOk(procs, t0, t0, secondReadyQueue);
      SecondTierBurst();
      SecondTierAdmits(q0, currentTime, Slice(q0.second[0].remainingTime, policy.secondQuantum));
      SecondTierStepInvariant(procs, policy, t0, trace0, q0, Slice(q0.second[0].remainingTime, policy.secondQuantum));
      ghost var b := Slice(q0.second[0].remainingTime, policy.secondQuantum);
      assert NextRun(policy, q0, t0, 0) == Run(q0.second[0].id, b, SecondTierQueues(q0, t0 + b, b));
    }

    /** A burst from MLFQ's third tier, once the other two are empty: its head
        runs to completion and the queues become `ThirdTierQueues`; the
        invariant holds again and the work left is lower. */
    method ThirdTierStep()
      requires Valid() && policy.MultiLevelFeedback? && readyQueue == [] && secondReadyQueue == [] && thirdReadyQueue != []
      modifies this, gantt
      ensures var b := old(thirdReadyQueue[0].remainingTime);
              && Advanced(old(currentTime), old(gantt.entries), old(thirdReadyQueue[0].id), b)
              && Queues() == ThirdTierQueues(old(Queues()), currentTime)
      ensures Ran(old(currentTime), old(gantt.entries), NextRun(policy, old(Queues()), old(currentTime), 0))
      ensures Valid() && NoneBefore(arrivals, currentTime)
      ensures WorkLeft(Queues()) < old(WorkLeft(Queues()))
    {
      ghost var q0 := Queues();
      ghost var t0 := currentTime;
      ghost var trace0 := gantt.entries;
      ThirdTierBurst();
      ThirdTierAdmits(q0, currentTime);
      ThirdTierStepInvariant(procs, policy, t0, trace0, q0);
      ghost var b := q0.third[0].remainingTime;
      assert NextRun(policy, q0, t0, 0) == Run(q0.third[0].id, b, ThirdTierQueues(q0, t0 + b));
    }

    /** `burst()` of the running policy: it runs the entry `Selected` picks
        (for MLFQ from the first non-empty tier) and leaves the state
        `NextRun` gives. The invariant holds again, the run makes progress,
        and the chart ends with a burst unless a ready entry is left. */
    method Burst() returns (k: nat)
      requires Valid() && NoneBefore(arrivals, currentTime) && !IsReadyQueueEmpty()
      modifies this, gantt
      ensures Selected(policy, old(Queues()), k)
      ensures Ran(old(currentTime), old(gantt.entries), NextRun(policy, old(Queues()), old(currentTime), k))
      ensures Valid() && NoneBefore(arrivals, currentTime)
      ensures EndsBusy(gantt.entries) || !IsReadyQueueEmpty()
      ensures WorkLeft(Queues()) < old(WorkLeft(Queues()))
              || (WorkLeft(Queues()) == old(WorkLeft(Queues())) && |arrivals| < old(|arrivals|))
    {
      ghost var q0 := Queues();
      ghost var t0 := currentTime;
      ghost var trace0 := gantt.entries;
      InvariantParts(procs, policy, t0, trace0, q0);
      match policy {
        case HighestResponseRatio =>
          k := HrrnStep();
        case RoundRobin(_) =>
          RoundRobinStep();
          k := 0;
        case ShortestRemaining =>
          k := ShortestRemainingStep();
        case MultiLevelFeedback(_, _) =>
          if readyQueue != [] {
            FirstTierStep();
          } else if secondReadyQueue != [] {
            SecondTierStep();
          } else {
            ThirdTierStep();
          }
          k := 0;
      }
      NextRunInvariant(procs, policy, t0, trace0, q0, k);
      InvariantParts(procs, policy, currentTime, gantt.entries, Queues());
    }

    /** The loop's idle branch, `jumpToNextArrivalTime()` and then
        `addArrivedProcesses()`: the chart records an idle interval up to the
        next arrival, the clock moves there, and the processes that have
        arrived by then are admitted, at least the one waited for. The
        invariant holds again and the work left is unchanged. */
    method IdleUntilArrival()
      requires Valid() && NoneBefore(arrivals, currentTime) && IsReadyQueueEmpty() && arrivals != []
      modifies this, gantt
      ensures Advanced(old(currentTime), old(gantt.entries), Idle, old(arrivals[0].arrivalTime) - old(currentTime))
      ensures Queues() == Admit(policy, old(Queues()), currentTime)
      ensures Valid() && NoneBefore(arrivals, currentTime) && !IsReadyQueueEmpty()
      ensures WorkLeft(Queues()) == old(WorkLeft(Queues())) && |arrivals| < old(|arrivals|)
    {
      assert NotBefore(arrivals[0], currentTime);
      InvariantParts(procs, policy, currentTime, gantt.entries, Queues());
      JumpInvariant(procs, policy, currentTime, gantt.entries, Queues());
      var ok := JumpToNextArrivalTime();
      ghost var q1 := Queues();
      ArrivalSplit(arrivals, currentTime);
      AdmitPending();
      NoneBeforeEarlier(arrivals, currentTime + 1, currentTime);
      assert |Arrived(q1.arrivals, currentTime)| > 0;
    }

    /** `schedule()`: runs until no process is pending or ready. Every process
        then has run for exactly its service time, none finished before it
        could have, the chart names only input processes and idle gaps, and it
        does not end idle. */
    method Schedule()
      requires Valid() && (gantt.entries == [] || EndsBusy(gantt.entries))
      modifies this, gantt
      ensures Valid() && Drained(Queues())
      ensures PidsWithin(gantt.entries, |procs|) && (gantt.entries == [] || EndsBusy(gantt.entries))
      ensures forall i | 0 <= i < |procs| :: Busy(gantt.entries, i) == procs[i].serviceTime
      ensures forall i | 0 <= i < |procs| && procs[i].serviceTime > 0 ::
                FinishOf(gantt.entries, i) >= procs[i].arrivalTime + procs[i].serviceTime
    {
      AdmitPending();
      NoneBeforeEarlier(arrivals, currentTime + 1, currentTime);
      while !IsReadyQueueEmpty() || arrivals != []
        invariant Valid() && NoneBefore(arrivals, currentTime)
        invariant gantt.entries == [] || EndsBusy(gantt.entries) || !IsReadyQueueEmpty()
        decreases WorkLeft(Queues()), |arrivals|
      {
        InvariantWorkLeft(procs, policy, currentTime, gantt.entries, Queues());
        if IsReadyQueueEmpty() {
          IdleUntilArrival();
        } else {
          var k := Burst();
        }
      }
      InvariantParts(procs, policy, currentTime, gantt.entries, Queues());
      DrainedSettles(procs, policy, currentTime, gantt.entries, Queues());
    }
  }

  // ---------------------------------------------------------------------------
  // Entry points

  /** Builds the scheduler for `policy` over `ps` and runs it. The source's
      arrival queue is a `PriorityQueue` sized by the number of processes,
      which cannot be built for none: for an empty input there is no trace. */
  method Run(ps: seq<Process>, policy: Policy) returns (g: Gantt?)
    requires WellFormedInput(ps) && PolicyOk(policy)
    ensures g == null <==> ps == []
    ensures g != null ==> Metrics.Complete(ps, g.entries)
  {
    if ps == [] {
      g := null;
    } else {
      var s := new Scheduler(ps, policy);
      s.Schedule();
      g := s.gantt;
    }
  }

  /** `hrrn(processes)`. */
  method Hrrn(ps: seq<Process>) returns (g: Gantt?)
    requires WellFormedInput(ps)
    ensures g == null <==> ps == []
    ensures g != null ==> Metrics.Complete(ps, g.entries)
  {
    g := Run(ps, HighestResponseRatio);
  }

  /** `rr(processes, quantumTime)`. */
  method Rr(ps: seq<Process>, quantumTime: int) returns (g: Gantt?)
    requires WellFormedInput(ps) && quantumTime > 0
    ensures g == null <==> ps == []
    ensures g != null ==> Metrics.Complete(ps, g.entries)
  {
    g := Run(ps, RoundRobin(quantumTime));
  }

  /** `strf(processes)`. */
  method Strf(ps: seq<Process>) returns (g: Gantt?)
    requires WellFormedInput(ps)
    ensures g == null <==> ps == []
    ensures g != null ==> Metrics.Complete(ps, g.entries)
  {
    g := Run(ps, ShortestRemaining);
  }

  /** `mlfq(processes, firstQueueQuantumTime, secondQueueQuantumTime)`. */
  method Mlfq(ps: seq<Process>, firstQueueQuantumTime: int, secondQueueQuantumTime: int) returns (g: Gantt?)
    requires WellFormedInput(ps) && firstQueueQuantumTime > 0 && secondQueueQuantumTime > 0
    ensures g == null <==> ps == []
    ensures g != null ==> Metrics.Complete(ps, g.entries)
  {
    g := Run(ps, MultiLevelFeedback(firstQueueQuantumTime, secondQueueQuantumTime));
  }

  /** The loop with `jumpToNextArrivalTime` as the source has it, on a single
      process that arrives at 2 and needs 3 units under RR: the jump takes the
      process out of the arrival queue, the admission finds nothing, and the
      loop stops with one idle interval. The process never runs. */
  method LostArrivalWitness() returns (entries: seq<Entry>, loopEnds: bool)
    ensures loopEnds
    ensures entries == [Entry(Idle, 2)]
    ensures Busy(entries, 0) == 0
  {
    var s := SingleLateArrival();
    s.AddArrivedProcesses();
    assert s.IsReadyQueueEmpty() && s.arrivals != [];
    var ok := s.JumpToNextArrivalTimeAsWritten();
    s.AddArrivedProcesses();
    loopEnds := s.IsReadyQueueEmpty() && s.arrivals == [];
    entries := s.gantt.entries;
    assert entries[..0] == [];
  }

  /** A scheduler for RR with quantum 1 over one process that arrives at 2 and needs 3 units. */
  method SingleLateArrival() returns (s: Scheduler)
    ensures fresh(s) && fresh(s.gantt)
    ensures s.policy == RoundRobin(1) && s.currentTime == 0 && s.gantt.entries == []
    ensures s.arrivals == [Process(0, 2, 3)] && s.readyQueue == []
  {
    var ps := [Process(0, 2, 3)];
    assert Scheduled(ps) == ps by {
      assert ps[..0] == [];
    }
    s := new Scheduler(ps, RoundRobin(1));
    OnlyElement(s.arrivals, Process(0, 2, 3));
  }

  /** A sequence holding one element, counted once, is that element alone. */
  lemma OnlyElement(q: seq<Process>, p: Process)
    requires multiset(q) == multiset([p])
    ensures q == [p]
  {
    assert |q| == |multiset(q)|;
    assert q[0] in multiset(q);
  }
}
