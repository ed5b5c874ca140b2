/** Ready-queue entries of the four policies, their orderings, the selection
    of the next entry to run, and the bookkeeping of outstanding work. */
module ReadyQueues {
  import opened Processes

  /** A ready entry of RR, STRF and MLFQ: the process id and the work it still needs. */
  datatype RunEntry = RunEntry(id: int, remainingTime: int)

  /** A ready entry of HRRN: the process id, the time it has waited and its service time. */
  datatype HrrnEntry = HrrnEntry(id: int, waitingTime: int, serviceTime: int)

  /** A freshly admitted process: all of its service time is still to run. */
  function FreshEntry(p: Process): RunEntry
  {
    RunEntry(p.id, p.serviceTime)
  }

  /** The entries that admitting `ps` in order appends to a RR, STRF or MLFQ queue. */
  function Fresh(ps: seq<Process>): (r: seq<RunEntry>)
    ensures |r| == |ps|
    ensures forall j :: 0 <= j < |ps| ==> r[j] == FreshEntry(ps[j])
  {
    seq(|ps|, j requires 0 <= j < |ps| => FreshEntry(ps[j]))
  }

  lemma FreshConcat(a: seq<Process>, b: seq<Process>)
    ensures Fresh(a + b) == Fresh(a) + Fresh(b)
  {
  }

  /** Admitting one more process from the head of the arrival queue `q`
      appends one entry, in each of the three forms an admission can take. */
  lemma AdmittedOneMore(q: seq<Process>, k: nat, now: int)
    requires k < |q|
    ensures Fresh(q[..k + 1]) == Fresh(q[..k]) + [FreshEntry(q[k])]
    ensures HrrnFresh(q[..k + 1]) == HrrnFresh(q[..k]) + [HrrnEntry(q[k].id, 0, q[k].serviceTime)]
    ensures HrrnBackDated(q[..k + 1], now) == HrrnBackDated(q[..k], now) + [HrrnEntry(q[k].id, now - q[k].arrivalTime, q[k].serviceTime)]
  {
  }

  // ---------------------------------------------------------------------------
  // Orderings

  /** STRF comparator: less remaining time first, then lower id. */
  predicate StrfBefore(a: RunEntry, b: RunEntry): (r: bool)
    ensures a.remainingTime != b.remainingTime ==> (r <==> a.remainingTime < b.remainingTime)
    ensures a.remainingTime == b.remainingTime ==> (r <==> a.id <= b.id)
  {
    a.remainingTime < b.remainingTime || (a.remainingTime == b.remainingTime && a.id <= b.id)
  }

  /** HRRN comparator: higher `waitingTime / serviceTime` first, then lower id.
      The ratios are compared by cross-multiplication, which is exact when
      both service times are positive (see RatioCrossMultiplication). */
  predicate HrrnBefore(a: HrrnEntry, b: HrrnEntry): (r: bool)
    ensures a.serviceTime > 0 && b.serviceTime > 0 ==>
      (r <==> || ResponseRatio(a) > ResponseRatio(b)
              || (ResponseRatio(a) == ResponseRatio(b) && a.id <= b.id))
  {
    var before :=
      || a.waitingTime * b.serviceTime > b.waitingTime * a.serviceTime
      || (a.waitingTime * b.serviceTime == b.waitingTime * a.serviceTime && a.id <= b.id);
    if a.serviceTime > 0 && b.serviceTime > 0 then
      RatioCrossMultiplication(a.waitingTime, a.serviceTime, b.waitingTime, b.serviceTime);
      before
    else
      before
  }

  /** `responseRatio`: the time waited per unit of service, as an exact real. */
  function ResponseRatio(e: HrrnEntry): real
    requires e.serviceTime > 0
  {
    e.waitingTime as real / e.serviceTime as real
  }

  /** Comparing `w1 / s1` with `w2 / s2` as real numbers is the same as
      comparing `w1 * s2` with `w2 * s1`, when the divisors are positive. */
  lemma RatioCrossMultiplication(w1: int, s1: int, w2: int, s2: int)
    requires s1 > 0 && s2 > 0
    ensures (w1 as real / s1 as real > w2 as real / s2 as real) <==> w1 * s2 > w2 * s1
    ensures (w1 as real / s1 as real == w2 as real / s2 as real) <==> w1 * s2 == w2 * s1
  {
    var r1, r2 := w1 as real / s1 as real, w2 as real / s2 as real;
    var d := (s1 * s2) as real;
    assert d > 0.0;
    assert r1 * d == (w1 * s2) as real by {
      assert r1 * s1 as real == w1 as real;
    }
    assert r2 * d == (w2 * s1) as real by {
      assert r2 * s2 as real == w2 as real;
    }
    assert r1 > r2 <==> r1 * d > r2 * d;
    assert r1 == r2 <==> r1 * d == r2 * d;
  }

  /** With positive service times the HRRN comparator is transitive. */
  lemma HrrnBeforeTransitive(a: HrrnEntry, b: HrrnEntry, c: HrrnEntry)
    requires a.serviceTime > 0 && b.serviceTime > 0 && c.serviceTime > 0
    requires HrrnBefore(a, b) && HrrnBefore(b, c)
    ensures HrrnBefore(a, c)
  {
    var wa, sa, wb, sb, wc, sc := a.waitingTime, a.serviceTime, b.waitingTime, b.serviceTime, c.waitingTime, c.serviceTime;
    // how far a is ahead of b, b of c, and a of c, each scaled by the other divisor
    var x, y, z := wa * sb - wb * sa, wb * sc - wc * sb, wa * sc - wc * sa;
    assert sb * z == sc * x + sa * y;
    MulNonNegative(sc, x);
    MulNonNegative(sa, y);
    if x > 0 || y > 0 {
      if x > 0 { MulPositive(sc, x); } else { MulPositive(sa, y); }
      PositiveFactor(sb, z);
    } else {
      ZeroFactor(sb, z);
    }
  }

  lemma MulNonNegative(k: int, x: int)
    requires k > 0 && x >= 0
    ensures k * x >= 0
  {
  }

  lemma MulPositive(k: int, x: int)
    requires k > 0 && x > 0
    ensures k * x > 0
  {
  }

  lemma PositiveFactor(k: int, z: int)
    requires k > 0 && k * z > 0
    ensures z > 0
  {
    if z <= 0 {
      MulNonNegative(k, -z);
    }
  }

  lemma ZeroFactor(k: int, z: int)
    requires k > 0 && k * z == 0
    ensures z == 0
  {
    if z > 0 {
      MulPositive(k, z);
    } else if z < 0 {
      MulPositive(k, -z);
    }
  }

  // ---------------------------------------------------------------------------
  // Selection: what the priority queues' `remove()` returns

  /** The STRF queue's head: an entry no other entry precedes. */
  method IndexOfShortest(q: seq<RunEntry>) returns (k: nat)
    requires |q| > 0
    ensures k < |q|
    ensures forall j :: 0 <= j < |q| ==> StrfBefore(q[k], q[j])
  {
    k := 0;
    var i := 1;
    while i < |q|
      invariant 1 <= i <= |q| && k < i
      invariant forall j :: 0 <= j < i ==> StrfBefore(q[k], q[j])
    {
      if !StrfBefore(q[k], q[i]) {
        k := i;
      }
      i := i + 1;
    }
  }

  /** The HRRN queue's head: the highest response ratio, the lowest id among ties. */
  method IndexOfHighestRatio(q: seq<HrrnEntry>) returns (k: nat)
    requires |q| > 0
    requires forall i :: 0 <= i < |q| ==> q[i].serviceTime > 0
    ensures k < |q|
    ensures forall j :: 0 <= j < |q| ==> HrrnBefore(q[k], q[j])
  {
    k := 0;
    var i := 1;
    while i < |q|
      invariant 1 <= i <= |q| && k < i
      invariant forall j :: 0 <= j < i ==> HrrnBefore(q[k], q[j])
    {
      if !HrrnBefore(q[k], q[i]) {
        forall j | 0 <= j < i
          ensures HrrnBefore(q[i], q[j])
        {
          HrrnBeforeTransitive(q[i], q[k], q[j]);
        }
        k := i;
      }
      i := i + 1;
    }
  }

  /** The queue once the entry at `k` is taken out. */
  function RemoveAt<T>(q: seq<T>, k: nat): (r: seq<T>)
    requires k < |q|
    ensures |r| == |q| - 1
    ensures multiset(r) + multiset{q[k]} == multiset(q)
    ensures forall i :: 0 <= i < |r| ==> r[i] == if i < k then q[i] else q[i + 1]
  {
    var r := seq(|q| - 1, i requires 0 <= i < |q| - 1 => if i < k then q[i] else q[i + 1]);
    assert r == q[..k] + q[k + 1..];
    assert q == q[..k] + [q[k]] + q[k + 1..];
    r
  }

  // ---------------------------------------------------------------------------
  // Outstanding work

  /** Work still owed to process `id` by the entries of `q`. */
  function Work(q: seq<RunEntry>, id: int): int
  {
    if q == [] then 0 else (if q[0].id == id then q[0].remainingTime else 0) + Work(q[1..], id)
  }

  /** Work still owed to all processes by the entries of `q`. */
  function TotalWork(q: seq<RunEntry>): int
  {
    if q == [] then 0 else q[0].remainingTime + TotalWork(q[1..])
  }

  lemma {:induction false} WorkConcat(a: seq<RunEntry>, b: seq<RunEntry>)
    ensures forall id :: Work(a + b, id) == Work(a, id) + Work(b, id)
    ensures TotalWork(a + b) == TotalWork(a) + TotalWork(b)
  {
    if a != [] {
      WorkConcat(a[1..], b);
      assert (a + b)[1..] == a[1..] + b;
    } else {
      assert a + b == b;
    }
  }

  lemma WorkRemoveAt(q: seq<RunEntry>, k: nat)
    requires k < |q|
    ensures forall id :: Work(RemoveAt(q, k), id) == Work(q, id) - (if q[k].id == id then q[k].remainingTime else 0)
    ensures TotalWork(RemoveAt(q, k)) == TotalWork(q) - q[k].remainingTime
  {
    assert RemoveAt(q, k) == q[..k] + q[k + 1..];
    WorkConcat(q[..k], q[k + 1..]);
    WorkAround(q, k);
  }

  /** The work of a queue is that before `k`, that of the entry at `k`, and that after it. */
  lemma WorkAround(q: seq<RunEntry>, k: nat)
    requires k < |q|
    ensures forall id :: Work(q, id) == Work(q[..k], id) + (if q[k].id == id then q[k].remainingTime else 0) + Work(q[k + 1..], id)
    ensures TotalWork(q) == TotalWork(q[..k]) + q[k].remainingTime + TotalWork(q[k + 1..])
  {
    assert q == q[..k] + q[k..];
    WorkConcat(q[..k], q[k..]);
    assert q[k..][1..] == q[k + 1..];
  }

  lemma {:induction false} TotalWorkPositive(q: seq<RunEntry>)
    requires forall i :: 0 <= i < |q| ==> q[i].remainingTime > 0
    ensures TotalWork(q) >= 0
    ensures q != [] ==> TotalWork(q) > 0
  {
    if q != [] {
      TotalWorkPositive(q[1..]);
    }
  }

  /** HRRN entries as outstanding work: a HRRN process never runs in part,
      so it still owes its whole service time. */
  function HrrnWork(q: seq<HrrnEntry>): (r: seq<RunEntry>)
    ensures |r| == |q|
    ensures forall j :: 0 <= j < |q| ==> r[j] == RunEntry(q[j].id, q[j].serviceTime)
  {
    seq(|q|, j requires 0 <= j < |q| => RunEntry(q[j].id, q[j].serviceTime))
  }

  lemma HrrnWorkConcat(a: seq<HrrnEntry>, b: seq<HrrnEntry>)
    ensures HrrnWork(a + b) == HrrnWork(a) + HrrnWork(b)
  {
  }

  /** HRRN entries for processes admitted by the loop's own admission: no waiting time yet. */
  function HrrnFresh(ps: seq<Process>): (r: seq<HrrnEntry>)
    ensures |r| == |ps|
    ensures forall j :: 0 <= j < |ps| ==> r[j] == HrrnEntry(ps[j].id, 0, ps[j].serviceTime)
    ensures HrrnWork(r) == Fresh(ps)
  {
    seq(|ps|, j requires 0 <= j < |ps| => HrrnEntry(ps[j].id, 0, ps[j].serviceTime))
  }

  /** HRRN entries for processes that arrived during a burst ending at `now`:
      credited with the time they have already waited. */
  function HrrnBackDated(ps: seq<Process>, now: int): (r: seq<HrrnEntry>)
    ensures |r| == |ps|
    ensures forall j :: 0 <= j < |ps| ==> r[j] == HrrnEntry(ps[j].id, now - ps[j].arrivalTime, ps[j].serviceTime)
    ensures HrrnWork(r) == Fresh(ps)
  {
    seq(|ps|, j requires 0 <= j < |ps| => HrrnEntry(ps[j].id, now - ps[j].arrivalTime, ps[j].serviceTime))
  }

  /** The HRRN queue once every entry has waited `s` more units. */
  function Waited(q: seq<HrrnEntry>, s: int): (r: seq<HrrnEntry>)
    ensures |r| == |q|
    ensures forall j :: 0 <= j < |q| ==> r[j] == q[j].(waitingTime := q[j].waitingTime + s)
    ensures HrrnWork(r) == HrrnWork(q)
  {
    seq(|q|, j requires 0 <= j < |q| => q[j].(waitingTime := q[j].waitingTime + s))
  }

  /** Taking an HRRN entry out and then reading the queue as work is the same
      as reading it as work and then taking the entry out. */
  lemma HrrnWorkRemoveAt(q: seq<HrrnEntry>, k: nat)
    requires k < |q|
    ensures HrrnWork(RemoveAt(q, k)) == RemoveAt(HrrnWork(q), k)
  {
    var a, b := HrrnWork(RemoveAt(q, k)), RemoveAt(HrrnWork(q), k);
    forall j | 0 <= j < |a|
      ensures a[j] == b[j]
    {
      if j < k {
        assert RemoveAt(q, k)[j] == q[j] && b[j] == HrrnWork(q)[j];
      } else {
        assert RemoveAt(q, k)[j] == q[j + 1] && b[j] == HrrnWork(q)[j + 1];
      }
    }
  }
}
