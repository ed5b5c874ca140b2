/** The arrival queue of the simulation loop: the processes still to arrive,
    ordered by arrival time and then by id (a priority queue in the source,
    a sorted sequence here). */
module Arrivals {
  import opened Processes

  /** The queue's comparator: earlier arrival first, then lower id, the ids
      compared as `Process.compareTo` compares them. */
  predicate ArrivalBefore(p: Process, q: Process): (r: bool)
    ensures p.arrivalTime != q.arrivalTime ==> (r <==> p.arrivalTime < q.arrivalTime)
    ensures p.arrivalTime == q.arrivalTime ==> (r <==> CompareTo(p, q) <= 0)
  {
    p.arrivalTime < q.arrivalTime || (p.arrivalTime == q.arrivalTime && p.id <= q.id)
  }

  /** The queue is in arrival order. The quantifier fires only on the pairs a
      proof names with `ArrivalBefore`, not on every pair of positions in sight. */
  predicate Sorted(q: seq<Process>)
  {
    forall i, j {:trigger ArrivalBefore(q[i], q[j])} :: 0 <= i < j < |q| ==> ArrivalBefore(q[i], q[j])
  }

  /** The queue after `add(p)`: `p` placed before the first element it precedes. */
  function Insert(q: seq<Process>, p: Process): (r: seq<Process>)
    requires Sorted(q)
    ensures Sorted(r)
    ensures multiset(r) == multiset(q) + multiset{p}
  {
    if q == [] || ArrivalBefore(p, q[0]) then
      PrependSorted(p, q);
      [p] + q
    else
      var rest := Insert(q[1..], p);
      assert q == [q[0]] + q[1..];
      InsertedAfterHead(q, p, rest);
      PrependSorted(q[0], rest);
      [q[0]] + rest
  }

  /** A process that precedes the head of a sorted queue can go in front of it. */
  lemma PrependSorted(p: Process, q: seq<Process>)
    requires Sorted(q) && (q == [] || ArrivalBefore(p, q[0]))
    ensures Sorted([p] + q)
  {
    var r := [p] + q;
    forall i, j | 0 <= i < j < |r|
      ensures ArrivalBefore(r[i], r[j])
    {
      if i == 0 {
        if j > 1 {
          assert ArrivalBefore(q[0], q[j - 1]);
        }
      } else {
        assert ArrivalBefore(q[i - 1], q[j - 1]);
      }
    }
  }

  /** When `p` does not precede the head of a sorted queue, the head precedes
      every element of the rest with `p` inserted. */
  lemma InsertedAfterHead(q: seq<Process>, p: Process, rest: seq<Process>)
    requires Sorted(q) && q != [] && !ArrivalBefore(p, q[0])
    requires multiset(rest) == multiset(q[1..]) + multiset{p}
    ensures rest == [] || ArrivalBefore(q[0], rest[0])
  {
    if rest != [] {
      var x := rest[0];
      assert x in multiset(rest);
      if x != p {
        assert x in multiset(q[1..]);
        var m :| 0 <= m < |q| - 1 && q[1..][m] == x;
        assert ArrivalBefore(q[0], q[m + 1]);
      }
    }
  }

  /** How many processes at the head of `q` have arrived by time `t`: the
      processes that `while (head.arrivalTime <= t) remove()` takes out. */
  function ArrivedCount(q: seq<Process>, t: int): (n: nat)
    ensures n <= |q|
    ensures forall j :: 0 <= j < n ==> q[j].arrivalTime <= t
    ensures n < |q| ==> q[n].arrivalTime > t
  {
    if q == [] || q[0].arrivalTime > t then 0 else 1 + ArrivedCount(q[1..], t)
  }

  /** The processes `while (head.arrivalTime <= t) remove()` takes out, in order. */
  function Arrived(q: seq<Process>, t: int): seq<Process>
  {
    if q == [] || q[0].arrivalTime > t then [] else [q[0]] + Arrived(q[1..], t)
  }

  /** The arrival queue that loop leaves behind. */
  function StillToArrive(q: seq<Process>, t: int): seq<Process>
  {
    if q == [] || q[0].arrivalTime > t then q else StillToArrive(q[1..], t)
  }

  /** The loop splits the queue at the count of arrived processes. */
  lemma {:induction false} ArrivalSplit(q: seq<Process>, t: int)
    ensures Arrived(q, t) == q[..ArrivedCount(q, t)]
    ensures StillToArrive(q, t) == q[ArrivedCount(q, t)..]
  {
    if q != [] && q[0].arrivalTime <= t {
      ArrivalSplit(q[1..], t);
      assert q[..ArrivedCount(q, t)] == [q[0]] + q[1..][..ArrivedCount(q[1..], t)];
    }
  }

  /** In a sorted queue the processes that have arrived by `t` are exactly
      those whose arrival time is at most `t`. */
  lemma {:induction false} ArrivedCountSorted(q: seq<Process>, t: int)
    requires Sorted(q)
    ensures forall j :: 0 <= j < |q| ==> (j < ArrivedCount(q, t) <==> q[j].arrivalTime <= t)
  {
    var n := ArrivedCount(q, t);
    forall j | n <= j < |q|
      ensures q[j].arrivalTime > t
    {
      if j > n {
        assert ArrivalBefore(q[n], q[j]);
      }
    }
  }

  /** The count of arrived processes is the first position whose process has
      not arrived, so the loop that stops there has removed exactly that many. */
  lemma {:induction false} ArrivedCountUnique(q: seq<Process>, t: int, k: nat)
    requires k <= |q| && forall j :: 0 <= j < k ==> q[j].arrivalTime <= t
    requires k == |q| || q[k].arrivalTime > t
    ensures k == ArrivedCount(q, t)
  {
    if k > 0 {
      ArrivedCountUnique(q[1..], t, k - 1);
    }
  }
}
