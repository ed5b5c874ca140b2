/** A simulated task: an immutable record whose identity is its `id`. */
module Processes {

  /** `id` is the process's index in the input, `arrivalTime` may be negative,
      `serviceTime` is the total work the process needs. */
  datatype Process = Process(id: int, arrivalTime: int, serviceTime: int)

  /** `Process.equals`: arrival and service times play no part. */
  predicate Equals(p: Process, q: Process): (r: bool)
    ensures r <==> Process(p.id, q.arrivalTime, q.serviceTime) == q
  {
    p.id == q.id
  }

  /** `Process.hashCode`: the hash of an `Int` id is the id itself, which is
      the id of every process equal to `p`. */
  function HashCode(p: Process): (h: int)
    ensures forall q :: Equals(p, q) ==> h == q.id
  {
    p.id
  }

  /** `Process.compareTo`: -1, 0 or 1, following the comparison of the ids. */
  function CompareTo(p: Process, q: Process): (r: int)
    ensures r == 0 <==> Equals(p, q)
    ensures r < 0 <==> p.id < q.id
    ensures r > 0 <==> p.id > q.id
    ensures -1 <= r <= 1
  {
    if p.id < q.id then -1 else if p.id == q.id then 0 else 1
  }

  /** Equal processes hash alike, so a hash set of processes is a set of ids. */
  lemma HashRespectsEquals(p: Process, q: Process)
    requires Equals(p, q)
    ensures HashCode(p) == HashCode(q)
  {
  }

  /** The ordering is antisymmetric and agrees with `Equals`. */
  lemma CompareToAntisymmetric(p: Process, q: Process)
    ensures CompareTo(p, q) == -CompareTo(q, p)
    ensures CompareTo(p, q) == 0 <==> Equals(q, p)
  {
  }

  /** What the input layer guarantees about the process set: listed in id
      order, the i-th process has id i, and no service time is negative. */
  predicate WellFormedInput(ps: seq<Process>)
  {
    forall i :: 0 <= i < |ps| ==> ps[i].id == i && ps[i].serviceTime >= 0
  }
}
