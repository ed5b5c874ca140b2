/** The figures derived from a finished trace: when each process last ran,
    its turnaround and waiting times, and their averages. The input processes
    are passed in explicitly, with ids equal to their positions. */
module Metrics {
  import opened Processes
  import opened Timeline

  /** The ids of the input processes: the keys `finishTimes` starts with. */
  function Ids(ps: seq<Process>): set<int>
  {
    set p | p in ps :: p.id
  }

  /** With ids equal to positions, the ids are exactly the positions. */
  lemma IdsArePositions(ps: seq<Process>)
    requires WellFormedInput(ps)
    ensures forall id :: id in Ids(ps) <==> 0 <= id < |ps|
  {
    forall id | 0 <= id < |ps|
      ensures id in Ids(ps)
    {
      assert ps[id] in ps;
    }
  }

  /** The map `finishTimes` specifies: every input id is a key, and maps to
      the end of the last interval with that pid, or 0 when it never ran. */
  function FinishMap(ps: seq<Process>, es: seq<Entry>): map<int, int>
  {
    map id | id in Ids(ps) :: FinishOf(es, id)
  }

  /** `finishTimes`: every id starts at 0; walking the trace with a running
      clock, each entry overwrites its pid's value with the time it ends, and
      `replace` leaves the map alone for a pid that is not a key, such as
      the idle pid. */
  method FinishTimes(ps: seq<Process>, es: seq<Entry>) returns (m: map<int, int>)
    ensures m.Keys == Ids(ps)
    ensures forall id | id in m :: m[id] == FinishOf(es, id)
    ensures m == FinishMap(ps, es)
  {
    m := map id | id in Ids(ps) :: 0;
    var currentTime := 0;
    var i := 0;
    while i < |es|
      invariant 0 <= i <= |es|
      invariant currentTime == Total(es[..i])
      invariant m.Keys == Ids(ps)
      invariant forall id | id in m :: m[id] == FinishOf(es[..i], id)
    {
      PiecesStep(es, i);
      assert es[..i + 1][..i] == es[..i];
      currentTime := currentTime + es[i].time;
      if es[i].pid in m {
        m := m[es[i].pid := currentTime];
      }
      i := i + 1;
    }
    assert es[..i] == es;
  }

  /** `turnAroundTimes`, indexed by id: the finish times in key order, each
      less the arrival time of the process in id order. */
  function TurnaroundTimes(ps: seq<Process>, es: seq<Entry>): (r: seq<int>)
    requires WellFormedInput(ps)
    ensures |r| == |ps|
  {
    IdsArePositions(ps);
    var finish := FinishMap(ps, es);
    seq(|ps|, i requires 0 <= i < |ps| => finish[i] - ps[i].arrivalTime)
  }

  /** `waitingTimes`, indexed by id: each turnaround time less the service
      time of the process in id order. */
  function WaitingTimes(ps: seq<Process>, es: seq<Entry>): (r: seq<int>)
    requires WellFormedInput(ps)
    ensures |r| == |ps|
  {
    var turnaround := TurnaroundTimes(ps, es);
    seq(|ps|, i requires 0 <= i < |ps| => turnaround[i] - ps[i].serviceTime)
  }

  /** The figures of one process, read off the trace directly: it turns
      around at the end of its last interval, and has waited for the part of
      its turnaround it did not run. */
  lemma {:induction false} PerProcess(ps: seq<Process>, es: seq<Entry>, i: nat)
    requires WellFormedInput(ps) && i < |ps|
    ensures TurnaroundTimes(ps, es)[i] == FinishOf(es, i) - ps[i].arrivalTime
    ensures WaitingTimes(ps, es)[i] == FinishOf(es, i) - ps[i].arrivalTime - ps[i].serviceTime
  {
    IdsArePositions(ps);
  }

  /** Sum of a list of figures. */
  function Sum(xs: seq<int>): int
  {
    if xs == [] then 0 else xs[0] + Sum(xs[1..])
  }

  /** `values.average()`: not a number for no values. */
  datatype AverageValue = NotANumber | Mean(value: real)

  /** The arithmetic mean, exactly: the average times the count is the sum. */
  function Average(xs: seq<int>): (r: AverageValue)
    ensures r.NotANumber? <==> xs == []
    ensures r.Mean? ==> r.value * (|xs| as real) == Sum(xs) as real
  {
    if xs == [] then NotANumber else Mean(Sum(xs) as real / |xs| as real)
  }

  /** `avgTurnAroundTime`: not a number without processes, otherwise the
      mean of the per-process turnaround times. */
  function AverageTurnaround(ps: seq<Process>, es: seq<Entry>): (r: AverageValue)
    requires WellFormedInput(ps)
    ensures r.NotANumber? <==> ps == []
    ensures r.Mean? ==> r.value * (|ps| as real) == Sum(TurnaroundTimes(ps, es)) as real
  {
    Average(TurnaroundTimes(ps, es))
  }

  /** `avgWaitingTime`: not a number without processes, otherwise the mean
      of the per-process waiting times. */
  function AverageWaiting(ps: seq<Process>, es: seq<Entry>): (r: AverageValue)
    requires WellFormedInput(ps)
    ensures r.NotANumber? <==> ps == []
    ensures r.Mean? ==> r.value * (|ps| as real) == Sum(WaitingTimes(ps, es)) as real
  {
    Average(WaitingTimes(ps, es))
  }

  /** Figures that all lie between two bounds sum to between the count times each bound. */
  lemma {:induction false} SumWithin(xs: seq<int>, lo: int, hi: int)
    requires forall i :: 0 <= i < |xs| ==> lo <= xs[i] <= hi
    ensures |xs| * lo <= Sum(xs) <= |xs| * hi
  {
    if xs != [] {
      SumWithin(xs[1..], lo, hi);
    }
  }

  /** The average of figures that all lie between two bounds lies between them. */
  lemma AverageWithin(xs: seq<int>, lo: int, hi: int)
    requires xs != [] && forall i :: 0 <= i < |xs| ==> lo <= xs[i] <= hi
    ensures Average(xs).Mean? && lo as real <= Average(xs).value <= hi as real
  {
    SumWithin(xs, lo, hi);
    var n := |xs| as real;
    CastProduct(|xs|, lo);
    CastProduct(|xs|, hi);
    assert Sum(xs) as real <= (|xs| * hi) as real;
    QuotientAtLeast(Sum(xs) as real, n, lo as real);
    QuotientAtMost(Sum(xs) as real, n, hi as real);
  }

  lemma CastProduct(a: int, b: int)
    ensures (a * b) as real == (a as real) * (b as real)
  {
  }

  /** Dividing by a positive count keeps a lower bound scaled by that count. */
  lemma QuotientAtLeast(s: real, n: real, lo: real)
    requires n > 0.0 && n * lo <= s
    ensures lo <= s / n
  {
  }

  /** Dividing by a positive count keeps an upper bound scaled by that count. */
  lemma QuotientAtMost(s: real, n: real, hi: real)
    requires n > 0.0 && s <= n * hi
    ensures s / n <= hi
  {
  }

  /** What a finished run guarantees about its trace: no interval of zero
      length, only input processes and idle gaps, no idle interval at the
      end, every process ran for exactly its service time, and none finished
      before its arrival plus its service time. */
  ghost predicate Complete(ps: seq<Process>, es: seq<Entry>)
  {
    && WellFormed(es)
    && PidsWithin(es, |ps|)
    && (es == [] || EndsBusy(es))
    && (forall i | 0 <= i < |ps| :: Busy(es, i) == ps[i].serviceTime)
    && (forall i | 0 <= i < |ps| && ps[i].serviceTime > 0 :: FinishOf(es, i) >= ps[i].arrivalTime + ps[i].serviceTime)
  }

  /** A pid that was given no time never appears in a trace without empty intervals. */
  lemma {:induction false} IdleNeverRan(es: seq<Entry>, pid: int)
    requires forall k :: 0 <= k < |es| ==> es[k].time > 0
    requires Busy(es, pid) == 0
    ensures FinishOf(es, pid) == 0
  {
    if es != [] {
      var init := es[..|es| - 1];
      BusyNonNegative(init, pid);
      IdleNeverRan(init, pid);
    }
  }

  /** The time a trace without negative intervals gives any pid is never negative. */
  lemma {:induction false} BusyNonNegative(es: seq<Entry>, pid: int)
    requires forall k :: 0 <= k < |es| ==> es[k].time > 0
    ensures Busy(es, pid) >= 0
  {
    if es != [] {
      BusyNonNegative(es[..|es| - 1], pid);
    }
  }

  /** On a finished run, a process with work waits a non-negative time, so
      its turnaround is at least its service time; a process with no work
      never runs, finishes at 0, and turns around at minus its arrival time. */
  lemma CompleteFigures(ps: seq<Process>, es: seq<Entry>, i: nat)
    requires WellFormedInput(ps) && Complete(ps, es) && i < |ps|
    ensures ps[i].serviceTime > 0 ==> WaitingTimes(ps, es)[i] >= 0
    ensures ps[i].serviceTime > 0 ==> TurnaroundTimes(ps, es)[i] >= ps[i].serviceTime
    ensures ps[i].serviceTime == 0 ==> TurnaroundTimes(ps, es)[i] == -ps[i].arrivalTime
    ensures ps[i].serviceTime == 0 ==> WaitingTimes(ps, es)[i] == -ps[i].arrivalTime
  {
    PerProcess(ps, es, i);
    if ps[i].serviceTime == 0 {
      IdleNeverRan(es, i);
    }
  }

  /** On a finished run in which every process has work, the average waiting
      time is a number and is not negative, and the average turnaround time
      is at least the shortest service time. */
  lemma CompleteAverages(ps: seq<Process>, es: seq<Entry>, shortest: int)
    requires WellFormedInput(ps) && Complete(ps, es) && ps != []
    requires forall i | 0 <= i < |ps| :: ps[i].serviceTime >= shortest > 0
    ensures AverageWaiting(ps, es).Mean? && AverageWaiting(ps, es).value >= 0.0
    ensures AverageTurnaround(ps, es).Mean? && AverageTurnaround(ps, es).value >= shortest as real
  {
    var waiting := WaitingTimes(ps, es);
    var turnaround := TurnaroundTimes(ps, es);
    forall i | 0 <= i < |ps|
      ensures 0 <= waiting[i] && shortest <= turnaround[i]
    {
      CompleteFigures(ps, es, i);
    }
    MaxOfBounds(waiting);
    MaxOfBounds(turnaround);
    AverageWithin(waiting, 0, MaxOf(waiting));
    AverageWithin(turnaround, shortest, MaxOf(turnaround));
  }

  function Max(a: int, b: int): int
  {
    if a < b then b else a
  }

  /** The largest of a list of figures, and 0 for none. */
  function MaxOf(xs: seq<int>): int
  {
    if xs == [] then 0 else Max(xs[0], MaxOf(xs[1..]))
  }

  lemma {:induction false} MaxOfBounds(xs: seq<int>)
    ensures forall i :: 0 <= i < |xs| ==> xs[i] <= MaxOf(xs)
  {
    if xs != [] {
      MaxOfBounds(xs[1..]);
    }
  }

  /** A non-negative maximum that some element attains is that element. */
  lemma MaxOfAttained(xs: seq<int>, i: nat)
    requires i < |xs| && xs[i] >= 0 && forall j :: 0 <= j < |xs| ==> xs[j] <= xs[i]
    ensures MaxOf(xs) == xs[i]
  {
    MaxOfBounds(xs);
    MaxOfAtMost(xs, xs[i]);
  }

  /** A non-negative bound on every element bounds the maximum. */
  lemma {:induction false} MaxOfAtMost(xs: seq<int>, m: int)
    requires m >= 0 && forall j :: 0 <= j < |xs| ==> xs[j] <= m
    ensures MaxOf(xs) <= m
  {
    if xs != [] {
      MaxOfAtMost(xs[1..], m);
    }
  }

  /** The finish time of every input process, in input order. */
  function Finishes(ps: seq<Process>, es: seq<Entry>): (r: seq<int>)
    ensures |r| == |ps| && forall i :: 0 <= i < |ps| ==> r[i] == FinishOf(es, i)
  {
    seq(|ps|, i requires 0 <= i < |ps| => FinishOf(es, i))
  }

  /** On a finished run the length of the trace is the latest finish time:
      the trace ends with a process running, and nothing finishes after the
      trace ends. With no processes the trace is empty and both are 0. */
  lemma TotalIsLatestFinish(ps: seq<Process>, es: seq<Entry>)
    requires Complete(ps, es)
    ensures Total(es) == MaxOf(Finishes(ps, es))
  {
    var f := Finishes(ps, es);
    forall j | 0 <= j < |ps|
      ensures 0 <= f[j] <= Total(es)
    {
      FinishWithinTotal(es, j);
    }
    if es == [] {
      if ps != [] {
        MaxOfAttained(f, 0);
      }
    } else {
      var last := es[|es| - 1].pid;
      assert 0 <= last < |ps|;
      assert f[last] == Total(es);
      MaxOfAttained(f, last);
    }
  }

  /** RR with quantum 4 over P0 (arrives 0, needs 5) and P1 (arrives 1,
      needs 3) gives the trace P0 for 4, P1 for 3, P0 for 1, worked by hand
      and taken as given here. In it P0 finishes at 8 and P1 at 7, so each
      waits 3 and so does the average. */
  lemma RoundRobinWaitingExample()
    ensures var ps := [Process(0, 0, 5), Process(1, 1, 3)];
            var es := [Entry(0, 4), Entry(1, 3), Entry(0, 1)];
            && WaitingTimes(ps, es) == [3, 3]
            && AverageWaiting(ps, es) == Mean(3.0)
  {
    var ps := [Process(0, 0, 5), Process(1, 1, 3)];
    var es := [Entry(0, 4), Entry(1, 3), Entry(0, 1)];
    assert es[..2] == [Entry(0, 4), Entry(1, 3)] && es[..2][..1] == [Entry(0, 4)] && es[..2][..1][..0] == [];
    assert Total(es[..2][..1]) == 4;
    assert Total(es[..2]) == 7;
    assert FinishOf(es, 0) == 8;
    assert FinishOf(es, 1) == 7;
    PerProcess(ps, es, 0);
    PerProcess(ps, es, 1);
    var w := WaitingTimes(ps, es);
    assert |w| == 2 && w[0] == 3 && w[1] == 3;
    assert w == [3, 3];
    assert Sum(w[1..]) == 3 by {
      assert w[1..] == [3] && w[1..][1..] == [];
    }
    assert Sum(w) == 6;
  }
}
