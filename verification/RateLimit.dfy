/** The fixed-window rate limiter (`auth_rate_allowed` in sign/db.py) over whole runs of calls
    for one key, and the row updates that implement it. */
module RateLimit {
  import opened Basics

  datatype Row = Row(count: nat, start: real)

  /** The upsert of one call at time `ts`. */
  function Hit(row: Option<Row>, ts: real, window: real): Row {
    if row.None? || ts - row.value.start >= window then Row(1, ts)
    else Row(row.value.count + 1, row.value.start)
  }

  function RowAfter(calls: seq<real>, window: real): Option<Row> {
    if calls == [] then None
    else Some(Hit(RowAfter(calls[..|calls| - 1], window), calls[|calls| - 1], window))
  }

  predicate Admitted(calls: seq<real>, i: nat, limit: nat, window: real)
    requires i < |calls|
  {
    RowAfter(calls[..i + 1], window).value.count <= limit
  }

  predicate Nondecreasing(calls: seq<real>) {
    forall i, j :: 0 <= i <= j < |calls| ==> calls[i] <= calls[j]
  }

  /** The call that opened the window call `i` falls in: the latest one at least `window`
      after the opening of the window before it. */
  function Opener(calls: seq<real>, i: nat, window: real): (j: nat)
    requires i < |calls|
    ensures j <= i
  {
    if i == 0 then 0
    else
      var j := Opener(calls, i - 1, window);
      if calls[i] - calls[j] >= window then i else j
  }

  lemma {:induction false} RowCountsWindow(calls: seq<real>, i: nat, window: real)
    requires i < |calls|
    ensures var j := Opener(calls, i, window); RowAfter(calls[..i + 1], window) == Some(Row(i - j + 1, calls[j]))
  {
    assert calls[..i + 1][..i] == calls[..i];
    if i == 0 {
      assert calls[..0] == [];
    } else {
      RowCountsWindow(calls, i - 1, window);
    }
  }

  /** Each window admits exactly its first `limit` calls. */
  lemma WindowAdmitsItsFirstCalls(calls: seq<real>, i: nat, limit: nat, window: real)
    requires i < |calls|
    ensures Admitted(calls, i, limit, window) <==> i < Opener(calls, i, window) + limit
  {
    RowCountsWindow(calls, i, window);
  }

  /** Everything from a window's opener to a member belongs to that window. */
  lemma {:induction false} SameWindow(calls: seq<real>, i: nat, k: nat, window: real)
    requires i < |calls| && Opener(calls, i, window) <= k <= i
    ensures Opener(calls, k, window) == Opener(calls, i, window)
    decreases i - k
  {
    if k < i {
      SameWindow(calls, i - 1, k, window);
    }
  }

  /** Two windows open at least `window` apart. */
  lemma {:induction false} OpenersApart(calls: seq<real>, i: nat, k: nat, window: real)
    requires Nondecreasing(calls) && i < k < |calls|
    requires Opener(calls, i, window) != Opener(calls, k, window)
    ensures i < Opener(calls, k, window)
    ensures calls[Opener(calls, k, window)] - calls[Opener(calls, i, window)] >= window
    decreases k
  {
    var j := Opener(calls, k, window);
    if j <= i {
      SameWindow(calls, k, i, window);
    } else if j < k {
      SameWindow(calls, k, k - 1, window);
      OpenersApart(calls, i, k - 1, window);
    } else if Opener(calls, k - 1, window) != Opener(calls, i, window) && i < k - 1 {
      OpenersApart(calls, i, k - 1, window);
      assert calls[Opener(calls, k - 1, window)] <= calls[k];
    }
  }

  /** The calls admitted at a time in [from, from + window). */
  function AdmittedWithin(calls: seq<real>, limit: nat, window: real, from: real): set<nat> {
    set i | 0 <= i < |calls| && from <= calls[i] < from + window && Admitted(calls, i, limit, window)
  }

  function Interval(a: nat, n: nat): (s: set<nat>)
    ensures |s| == n && forall x :: x in s <==> a <= x < a + n
  {
    if n == 0 then {} else Interval(a, n - 1) + {a + n - 1}
  }

  lemma SubsetSize(s: set<nat>, t: set<nat>)
    requires s <= t
    ensures |s| <= |t|
  {
    assert t == s + (t - s);
  }

  /** A call of the interval that opens a window after the first of the interval has the last
      window that the interval can meet. */
  lemma AtMostTwoWindows(calls: seq<real>, window: real, from: real, i0: nat, i1: nat, i: nat)
    requires Nondecreasing(calls) && i0 < i1 <= i < |calls|
    requires from <= calls[i0] && calls[i] < from + window
    requires Opener(calls, i1, window) != Opener(calls, i0, window)
    ensures Opener(calls, i, window) == Opener(calls, i1, window)
  {
    OpenersApart(calls, i0, i1, window);
    assert calls[i0] <= calls[Opener(calls, i1, window)];
    assert calls[Opener(calls, i, window)] <= calls[i];
    if Opener(calls, i, window) != Opener(calls, i1, window) {
      OpenersApart(calls, i1, i, window);
      assert false;
    }
  }

  /** Any half-open interval one window long admits at most twice the limit. */
  lemma IntervalAdmitsAtMostTwice(calls: seq<real>, limit: nat, window: real, from: real)
    requires Nondecreasing(calls)
    ensures |AdmittedWithin(calls, limit, window, from)| <= 2 * limit
  {
    var admitted := AdmittedWithin(calls, limit, window, from);
    forall i | i in admitted
      ensures i < Opener(calls, i, window) + limit
    {
      WindowAdmitsItsFirstCalls(calls, i, limit, window);
    }
    if admitted != {} {
      var i0 := Least(admitted);
      var a := Opener(calls, i0, window);
      var others := set i | i in admitted && Opener(calls, i, window) != a;
      if others == {} {
        forall i | i in admitted
          ensures i in Interval(a, limit)
        {
          assert i !in others;
        }
        SubsetSize(admitted, Interval(a, limit));
      } else {
        var i1 := Least(others);
        var b := Opener(calls, i1, window);
        forall i | i in admitted
          ensures i in Interval(a, limit) + Interval(b, limit)
        {
          if i in others {
            AtMostTwoWindows(calls, window, from, i0, i1, i);
          }
        }
        SubsetSize(admitted, Interval(a, limit) + Interval(b, limit));
      }
    }
  }

  lemma Least(s: set<nat>) returns (m: nat)
    requires s != {}
    ensures m in s && forall x :: x in s ==> m <= x
  {
    m :| m in s;
    var rest := s - {m};
    if rest != {} {
      var n := Least(rest);
      assert forall x :: x in s <==> x in rest || x == m;
      if n < m {
        m := n;
      }
    } else {
      assert s == {m};
    }
  }

  /** The table, one row per key. */
  class Limiter {
    var rows: map<string, Row>

    constructor ()
      ensures rows == map[]
    {
      rows := map[];
    }

    method Allow(key: string, limit: nat, window: real, ts: real) returns (ok: bool)
      modifies this
      ensures var row := Hit(Get(old(rows), key), ts, window);
              rows == Put(old(rows), key, Some(row)) && ok == (row.count <= limit)
    {
      var count, start := 1, ts;
      if key in rows {
        var expired := ts - rows[key].start >= window;
        if !expired {
          count, start := rows[key].count + 1, rows[key].start;
        }
      }
      rows := rows[key := Row(count, start)];
      return count <= limit;
    }
  }
}
