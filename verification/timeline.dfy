/** The Gantt trace: an ordered list of (pid, time) intervals, where pid -1
    marks an idle gap. Adding merges a new interval into the previous one when
    both belong to the same pid and drops intervals of length zero. */
module Timeline {
  import Decimal

  /** The pid of an interval in which no process runs. */
  const Idle: int := -1

  datatype Entry = Entry(pid: int, time: int)

  /** `Entry.equals`: two entries are equal when their pids are, whatever their times. */
  predicate SameAttribution(a: Entry, b: Entry)
  {
    a.pid == b.pid
  }

  /** Sum of all entry times: the instant at which the trace ends. */
  function Total(es: seq<Entry>): int
  {
    if es == [] then 0 else Total(es[..|es| - 1]) + es[|es| - 1].time
  }

  /** Time attributed to `pid` over the whole trace. */
  function Busy(es: seq<Entry>, pid: int): int
  {
    if es == [] then 0
    else Busy(es[..|es| - 1], pid) + (if es[|es| - 1].pid == pid then es[|es| - 1].time else 0)
  }

  /** End of the last interval attributed to `pid`; 0 when `pid` never appears. */
  function FinishOf(es: seq<Entry>, pid: int): int
  {
    if es == [] then 0
    else if es[|es| - 1].pid == pid then Total(es)
    else FinishOf(es[..|es| - 1], pid)
  }

  /** The interval at `k` belongs to another pid than the one before it. */
  predicate Alternates(es: seq<Entry>, k: int)
    requires 0 < k < |es|
  {
    es[k - 1].pid != es[k].pid
  }

  /** No interval of zero length, and no two neighbouring intervals with the same pid. */
  predicate WellFormed(es: seq<Entry>)
  {
    && (forall k :: 0 <= k < |es| ==> es[k].time > 0)
    && (forall k :: 0 < k < |es| ==> Alternates(es, k))
  }

  /** `Gantt.add`: the trace once `e` has been added to `es`. */
  function Added(es: seq<Entry>, e: Entry): (r: seq<Entry>)
    ensures e.time == 0 ==> r == es
    ensures e.time != 0 ==> |r| > 0 && r[|r| - 1].pid == e.pid
    ensures |es| <= |r| <= |es| + 1
    ensures |es| > 0 ==> r[..|es| - 1] == es[..|es| - 1]
  {
    if e.time == 0 then es
    else if |es| > 0 && SameAttribution(e, es[|es| - 1]) then es[|es| - 1 := Entry(e.pid, es[|es| - 1].time + e.time)]
    else es + [e]
  }

  /** Adding `e` moves the end of the trace `e.time` later, and adding an
      interval of non-negative length keeps the trace well formed. */
  lemma AddedTotal(es: seq<Entry>, e: Entry)
    ensures Total(Added(es, e)) == Total(es) + e.time
    ensures WellFormed(es) && e.time >= 0 ==> WellFormed(Added(es, e))
  {
    var r := Added(es, e);
    if e.time == 0 {
    } else if |es| > 0 && SameAttribution(e, es[|es| - 1]) {
      assert r[..|r| - 1] == es[..|es| - 1];
      MergedWellFormed(es, e);
    } else {
      assert r[..|es|] == es;
      AppendedWellFormed(es, e);
    }
  }

  /** Growing the last interval keeps the trace well formed. */
  lemma MergedWellFormed(es: seq<Entry>, e: Entry)
    requires |es| > 0 && e.pid == es[|es| - 1].pid
    ensures WellFormed(es) && e.time >= 0 ==> WellFormed(es[|es| - 1 := Entry(e.pid, es[|es| - 1].time + e.time)])
  {
    var r := es[|es| - 1 := Entry(e.pid, es[|es| - 1].time + e.time)];
    if WellFormed(es) && e.time >= 0 {
      forall k | 0 < k < |r|
        ensures Alternates(r, k)
      {
        assert Alternates(es, k) && r[k - 1] == es[k - 1] && r[k].pid == es[k].pid;
      }
    }
  }

  /** A new interval of positive length for another pid keeps the trace well formed. */
  lemma AppendedWellFormed(es: seq<Entry>, e: Entry)
    requires e.time != 0 && (|es| > 0 ==> e.pid != es[|es| - 1].pid)
    ensures WellFormed(es) && e.time >= 0 ==> WellFormed(es + [e])
  {
    var r := es + [e];
    if WellFormed(es) && e.time >= 0 {
      forall k | 0 < k < |r|
        ensures Alternates(r, k)
      {
        if k < |es| {
          assert Alternates(es, k);
        }
      }
    }
  }

  /** Adding `e` credits `e.time` to `e.pid` and to no other pid, and, unless
      `e` is empty, makes the end of the trace the finish time of `e.pid`
      while leaving every other pid's finish time where it was. */
  lemma AddedAttribution(es: seq<Entry>, e: Entry, pid: int)
    ensures Busy(Added(es, e), pid) == Busy(es, pid) + (if e.pid == pid then e.time else 0)
    ensures FinishOf(Added(es, e), pid) ==
              if e.pid == pid && e.time != 0 then Total(es) + e.time else FinishOf(es, pid)
  {
    var r := Added(es, e);
    if e.time == 0 {
    } else if |es| > 0 && SameAttribution(e, es[|es| - 1]) {
      var init := es[..|es| - 1];
      assert r[..|r| - 1] == init;
      assert Busy(r, pid) == Busy(init, pid) + (if e.pid == pid then es[|es| - 1].time + e.time else 0);
      assert Busy(es, pid) == Busy(init, pid) + (if e.pid == pid then es[|es| - 1].time else 0);
    } else {
      assert r == es + [e];
      assert r[..|r| - 1] == es;
    }
  }

  /** Every interval is idle or belongs to one of the ids `0 .. n - 1`. */
  predicate PidsWithin(es: seq<Entry>, n: int)
  {
    forall k :: 0 <= k < |es| ==> es[k].pid == Idle || 0 <= es[k].pid < n
  }

  /** The trace is not empty and its last interval is not idle. */
  predicate EndsBusy(es: seq<Entry>)
  {
    es != [] && es[|es| - 1].pid != Idle
  }

  /** Adding an idle interval or one of a known id keeps every pid known;
      adding a non-empty interval makes it the last one. */
  lemma AddedPids(es: seq<Entry>, e: Entry, n: int)
    ensures PidsWithin(es, n) && (e.pid == Idle || 0 <= e.pid < n) ==> PidsWithin(Added(es, e), n)
    ensures e.time != 0 ==> Added(es, e) != [] && Added(es, e)[|Added(es, e)| - 1].pid == e.pid
    ensures e.time == 0 ==> Added(es, e) == es
  {
    var r := Added(es, e);
    if PidsWithin(es, n) && (e.pid == Idle || 0 <= e.pid < n) && e.time != 0 {
      forall k | 0 <= k < |r|
        ensures r[k].pid == Idle || 0 <= r[k].pid < n
      {
        if k < |es| && r[k] != es[k] {
          assert r[k].pid == e.pid;
        }
      }
    }
  }

  /** With intervals of non-negative length, a finish time lies within the trace. */
  lemma {:induction false} FinishWithinTotal(es: seq<Entry>, pid: int)
    requires forall k :: 0 <= k < |es| ==> es[k].time >= 0
    ensures 0 <= FinishOf(es, pid) <= Total(es)
  {
    if es != [] {
      FinishWithinTotal(es[..|es| - 1], pid);
      TotalNonNegative(es);
    }
  }

  lemma {:induction false} TotalNonNegative(es: seq<Entry>)
    requires forall k :: 0 <= k < |es| ==> es[k].time >= 0
    ensures Total(es) >= 0
  {
    if es != [] {
      TotalNonNegative(es[..|es| - 1]);
    }
  }

  /** The finish time of `pid` is the prefix sum up to and including its last interval. */
  lemma {:induction false} FinishOfLastInterval(es: seq<Entry>, pid: int, k: int)
    requires 0 <= k < |es| && es[k].pid == pid
    requires forall j :: k < j < |es| ==> es[j].pid != pid
    ensures FinishOf(es, pid) == Total(es[..k + 1])
  {
    if k < |es| - 1 {
      var init := es[..|es| - 1];
      assert init[..k + 1] == es[..k + 1];
      FinishOfLastInterval(init, pid, k);
    } else {
      assert es[..k + 1] == es;
    }
  }

  /** A pid with no interval in the trace finishes at 0. */
  lemma {:induction false} FinishOfAbsent(es: seq<Entry>, pid: int)
    requires forall j :: 0 <= j < |es| ==> es[j].pid != pid
    ensures FinishOf(es, pid) == 0 && Busy(es, pid) == 0
  {
    if es != [] {
      FinishOfAbsent(es[..|es| - 1], pid);
    }
  }

  /** How a pid is printed: `Idle` for the idle pid, `P<pid>` otherwise. */
  function Label(pid: int): (r: string)
    ensures r == "Idle" <==> pid == Idle
    ensures pid != Idle ==> |r| > 1 && r[0] == 'P' && Decimal.ParseInt(r[1..]) == Decimal.Some(pid)
  {
    if pid == Idle then "Idle"
    else
      var s := Decimal.IntToString(pid);
      Decimal.IntToStringRoundTrip(pid);
      assert ("P" + s)[1..] == s;
      "P" + s
  }

  /** A time stamp as printed: `(<t>)`. */
  function Stamp(t: int): string
  {
    "(" + Decimal.IntToString(t) + ")"
  }

  /** What `toString` prints before the closing stamp: every entry preceded by
      the sum of the times of the entries before it. */
  function Pieces(es: seq<Entry>): string
  {
    if es == [] then "" else Pieces(es[..|es| - 1]) + Piece(Total(es[..|es| - 1]), es[|es| - 1].pid)
  }

  /** One entry as printed: the stamp of the time it starts at, then its label. */
  function Piece(start: int, pid: int): string
  {
    Stamp(start) + " " + Label(pid) + " "
  }

  /** Printing one more entry appends its piece, stamped with the time it starts at. */
  lemma PiecesStep(es: seq<Entry>, i: nat)
    requires i < |es|
    ensures Pieces(es[..i + 1]) == Pieces(es[..i]) + Piece(Total(es[..i]), es[i].pid)
    ensures Total(es[..i + 1]) == Total(es[..i]) + es[i].time
  {
    assert es[..i + 1][..i] == es[..i];
  }

  /** `Gantt.toString`: the pieces followed by the stamp of the total time. */
  function Rendered(es: seq<Entry>): string
  {
    Pieces(es) + Stamp(Total(es))
  }

  /** The trace of a short run, printed: P2 for 4 units, idle for 3, P1 for 3. */
  lemma RenderedExample()
    ensures Rendered([Entry(2, 4), Entry(Idle, 3), Entry(1, 3)]) == "(0) P2 (4) Idle (7) P1 (10)"
  {
    var es := [Entry(2, 4), Entry(Idle, 3), Entry(1, 3)];
    PiecesExample();
    assert es[..2] == [Entry(2, 4), Entry(Idle, 3)] && es[..2][..1] == [Entry(2, 4)];
    assert Total(es[..2][..1]) == 4 && Total(es[..2]) == 7 && Total(es) == 10;
    assert Stamp(10) == "(10)" by {
      assert Decimal.NatToString(10) == Decimal.NatToString(1) + [Decimal.DigitChar(0)];
    }
  }

  lemma PiecesExample()
    ensures Pieces([Entry(2, 4), Entry(Idle, 3), Entry(1, 3)]) == "(0) P2 (4) Idle (7) P1 "
  {
    var es := [Entry(2, 4), Entry(Idle, 3), Entry(1, 3)];
    assert es[..2] == [Entry(2, 4), Entry(Idle, 3)];
    PiecesPrefixExample();
    assert es[..2][..1] == [Entry(2, 4)];
    assert Total(es[..2]) == 7;
    assert Piece(7, 1) == "(7) P1 " by {
      assert Decimal.IntToString(7) == "7" && Decimal.IntToString(1) == "1";
    }
  }

  lemma PiecesPrefixExample()
    ensures Pieces([Entry(2, 4), Entry(Idle, 3)]) == "(0) P2 (4) Idle "
  {
    var es := [Entry(2, 4), Entry(Idle, 3)];
    assert es[..1] == [Entry(2, 4)];
    FirstPieceExample();
    assert Piece(4, Idle) == "(4) Idle " by {
      assert Decimal.IntToString(4) == "4";
    }
  }

  /** A trace of one entry prints one piece stamped 0. */
  lemma FirstPieceExample()
    ensures Pieces([Entry(2, 4)]) == "(0) P2 "
    ensures Total([Entry(2, 4)]) == 4
  {
    var es := [Entry(2, 4)];
    assert es[..0] == [];
    assert Piece(0, 2) == "(0) P2 " by {
      assert Decimal.IntToString(0) == "0" && Decimal.IntToString(2) == "2";
    }
  }

  class Gantt {
    var entries: seq<Entry>

    constructor ()
      ensures entries == []
    {
      entries := [];
    }

    /** `Gantt.add(pid, time)` (the `Pair` and `Entry` overloads and `+=` forward to it). */
    method Add(pid: int, time: int)
      modifies this
      ensures entries == Added(old(entries), Entry(pid, time))
    {
      var entry := Entry(pid, time);
      if entry.time == 0 {
        return;
      } else if |entries| > 0 && SameAttribution(entry, entries[|entries| - 1]) {
        var l := entries[|entries| - 1];
        entries := entries[..|entries| - 1];
        entries := entries + [Entry(entry.pid, l.time + entry.time)];
        assert entries == old(entries)[|old(entries)| - 1 := Entry(entry.pid, l.time + entry.time)];
      } else {
        entries := entries + [entry];
      }
    }

    /** `Gantt.toString`, built left to right with the running time `ct`. */
    method ToString() returns (s: string)
      ensures s == Rendered(entries)
    {
      var sb := "";
      var ct := 0;
      var i := 0;
      while i < |entries|
        invariant 0 <= i <= |entries|
        invariant ct == Total(entries[..i])
        invariant sb == Pieces(entries[..i])
      {
        var it := entries[i];
        var name := if it.pid == -1 then "Idle" else "P" + Decimal.IntToString(it.pid);
        PiecesStep(entries, i);
        sb := sb + ("(" + Decimal.IntToString(ct) + ")" + " " + name + " ");
        ct := ct + it.time;
        i := i + 1;
      }
      sb := sb + ("(" + Decimal.IntToString(ct) + ")");
      assert entries[..i] == entries;
      s := sb;
    }
  }
}
