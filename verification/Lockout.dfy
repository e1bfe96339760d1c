/** The failure lockout (`auth_limit_record`, `auth_limit_locked` in sign/db.py) over whole
    runs of recorded attempts for one key. */
module Lockout {
  import opened Basics

  datatype Row = Row(fails: nat, until: real)

  predicate Locked(row: Option<Row>, now: real) {
    row.Some? && now < row.value.until
  }

  /** The row after one recorded attempt. */
  function Record(row: Option<Row>, ts: real, ok: bool, limit: int, seconds: real): Option<Row> {
    if ok then None
    else if Locked(row, ts) then row
    else
      var fails := if row.Some? then row.value.fails + 1 else 1;
      if ts < 0.0 || fails < limit then Some(Row(fails, 0.0)) else Some(Row(0, ts + seconds))
  }

  datatype Attempt = Attempt(ts: real, ok: bool)

  function RowAfter(h: seq<Attempt>, limit: int, seconds: real): Option<Row> {
    if h == [] then None
    else
      var last := h[|h| - 1];
      Record(RowAfter(h[..|h| - 1], limit, seconds), last.ts, last.ok, limit, seconds)
  }

  /** Attempt `i` is a failure recorded while the key was not locked. */
  predicate Counted(h: seq<Attempt>, i: nat, limit: int, seconds: real)
    requires i < |h|
  {
    !h[i].ok && !Locked(RowAfter(h[..i], limit, seconds), h[i].ts)
  }

  /** Attempt `i` is the failure that sets the lock. */
  predicate Onset(h: seq<Attempt>, i: nat, limit: int, seconds: real)
    requires i < |h|
  {
    Counted(h, i, limit, seconds) && RowAfter(h[..i + 1], limit, seconds) == Some(Row(0, h[i].ts + seconds))
  }

  /** A clock that never runs backwards, from the epoch on. */
  predicate Clocked(h: seq<Attempt>) {
    (forall i :: 0 <= i < |h| ==> h[i].ts >= 0.0) && forall i, j :: 0 <= i <= j < |h| ==> h[i].ts <= h[j].ts
  }

  lemma RowStep(h: seq<Attempt>, i: nat, limit: int, seconds: real)
    requires i < |h|
    ensures RowAfter(h[..i + 1], limit, seconds)
         == Record(RowAfter(h[..i], limit, seconds), h[i].ts, h[i].ok, limit, seconds)
  {
    assert h[..i + 1][..i] == h[..i];
  }

  /** The unlocked failures among the first `n` attempts since the last success or onset. */
  function SinceReset(h: seq<Attempt>, n: nat, limit: int, seconds: real): nat
    requires n <= |h|
  {
    if n == 0 || h[n - 1].ok || Onset(h, n - 1, limit, seconds) then 0
    else SinceReset(h, n - 1, limit, seconds) + if Counted(h, n - 1, limit, seconds) then 1 else 0
  }

  /** The stored counter is exactly the unlocked failures since the last success or lock. */
  lemma {:induction false} CounterIsFailuresSinceReset(h: seq<Attempt>, n: nat, limit: int, seconds: real)
    requires Clocked(h) && n <= |h|
    ensures var row := RowAfter(h[..n], limit, seconds);
            (if row.Some? then row.value.fails else 0) == SinceReset(h, n, limit, seconds)
  {
    if n > 0 {
      CounterIsFailuresSinceReset(h, n - 1, limit, seconds);
      RowStep(h, n - 1, limit, seconds);
    }
  }

  predicate Within(ts: real, from: real, seconds: real) {
    from <= ts < from + seconds
  }

  /** How many of the first `n` attempts are unlocked failures in [from, from + seconds). */
  function CountedWithin(h: seq<Attempt>, n: nat, from: real, limit: int, seconds: real): nat
    requires n <= |h|
  {
    if n == 0 then 0
    else CountedWithin(h, n - 1, from, limit, seconds)
         + if Within(h[n - 1].ts, from, seconds) && Counted(h, n - 1, limit, seconds) then 1 else 0
  }

  lemma {:induction false} FailuresBounded(h: seq<Attempt>, n: nat, from: real, limit: int, seconds: real)
    requires Clocked(h) && n <= |h|
    requires forall i :: 0 <= i < n && Within(h[i].ts, from, seconds) ==> !h[i].ok
    requires forall i :: 0 <= i < n ==> h[i].ts < from + seconds
    ensures var k, row := CountedWithin(h, n, from, limit, seconds), RowAfter(h[..n], limit, seconds);
            && k <= AtLeastOne(limit)
            && (k > 0 ==> row.Some? && (row.value.until >= from + seconds || k <= row.value.fails < limit))
  {
    if n > 0 {
      FailuresBounded(h, n - 1, from, limit, seconds);
      RowStep(h, n - 1, limit, seconds);
      if !Within(h[n - 1].ts, from, seconds) {
        NoneBefore(h, n, from, limit, seconds);
      }
    }
  }

  lemma {:induction false} NoneBefore(h: seq<Attempt>, n: nat, from: real, limit: int, seconds: real)
    requires Clocked(h) && n <= |h| && (n > 0 ==> h[n - 1].ts < from)
    ensures CountedWithin(h, n, from, limit, seconds) == 0
  {
    if n > 1 {
      assert h[n - 2].ts <= h[n - 1].ts;
    }
    if n > 0 {
      NoneBefore(h, n - 1, from, limit, seconds);
    }
  }

  lemma {:induction false} NoneAfter(h: seq<Attempt>, n: nat, m: nat, from: real, limit: int, seconds: real)
    requires n <= m <= |h| && forall i :: n <= i < m ==> h[i].ts >= from + seconds
    ensures CountedWithin(h, m, from, limit, seconds) == CountedWithin(h, n, from, limit, seconds)
  {
    if n < m {
      NoneAfter(h, n, m - 1, from, limit, seconds);
    }
  }

  /** An interval of `seconds` with no success in it sees at most `limit` unlocked failures
      (one, when the limit is below one). */
  lemma IntervalSeesAtMostLimitFailures(h: seq<Attempt>, from: real, limit: int, seconds: real)
    requires Clocked(h)
    requires forall i :: 0 <= i < |h| && Within(h[i].ts, from, seconds) ==> !h[i].ok
    ensures CountedWithin(h, |h|, from, limit, seconds) <= AtLeastOne(limit)
  {
    var n := |h|;
    while n > 0 && h[n - 1].ts >= from + seconds
      invariant 0 <= n <= |h|
      invariant forall i :: n <= i < |h| ==> h[i].ts >= from + seconds
    {
      n := n - 1;
    }
    FailuresBounded(h, n, from, limit, seconds);
    NoneAfter(h, n, |h|, from, limit, seconds);
  }

  /** A lock holds: without a success, nothing changes the row before it runs out. */
  lemma {:induction false} LockHolds(h: seq<Attempt>, i: nat, k: nat, limit: int, seconds: real)
    requires Clocked(h) && i < k <= |h| && Onset(h, i, limit, seconds)
    requires forall j :: i < j < k ==> !h[j].ok && h[j].ts < h[i].ts + seconds
    ensures RowAfter(h[..k], limit, seconds) == Some(Row(0, h[i].ts + seconds))
  {
    if k > i + 1 {
      LockHolds(h, i, k - 1, limit, seconds);
      RowStep(h, k - 1, limit, seconds);
    }
  }

  /** And it holds exactly until then: a failure is counted again from the moment it runs out. */
  lemma LockEndsOnTime(h: seq<Attempt>, i: nat, k: nat, ts: real, limit: int, seconds: real)
    requires Clocked(h) && i < k <= |h| && Onset(h, i, limit, seconds)
    requires forall j :: i < j < k ==> !h[j].ok && h[j].ts < h[i].ts + seconds
    ensures Locked(RowAfter(h[..k], limit, seconds), ts) <==> ts < h[i].ts + seconds
  {
    LockHolds(h, i, k, limit, seconds);
  }

  /** Two locks set less than `seconds` apart have a success recorded under the first. */
  lemma OnsetsApartUnlessCleared(h: seq<Attempt>, i: nat, j: nat, limit: int, seconds: real)
    requires Clocked(h) && i < j < |h| && Onset(h, i, limit, seconds) && Onset(h, j, limit, seconds)
    ensures h[j].ts >= h[i].ts + seconds || exists k :: i < k < j && h[k].ok && h[k].ts < h[i].ts + seconds
  {
    if h[j].ts < h[i].ts + seconds && forall k :: i < k < j ==> !h[k].ok {
      LockHolds(h, i, j, limit, seconds);
      assert false;
    }
  }

  lemma Extend(h: seq<Attempt>, a: Attempt, limit: int, seconds: real)
    ensures RowAfter(h + [a], limit, seconds) == Record(RowAfter(h, limit, seconds), a.ts, a.ok, limit, seconds)
  {
    assert (h + [a])[..|h|] == h;
  }

  /** After a success, `n` failures at once are counted one by one. */
  lemma {:induction false} FailuresAfterSuccess(h: seq<Attempt>, ts: real, n: nat, limit: int, seconds: real) returns (g: seq<Attempt>)
    requires Clocked(h) && h != [] && h[|h| - 1] == Attempt(ts, true) && n < AtLeastOne(limit)
    ensures Clocked(g) && |g| == |h| + n && g[..|h|] == h && g[|g| - 1].ts == ts
    ensures RowAfter(g, limit, seconds) == if n == 0 then None else Some(Row(n, 0.0))
  {
    if n == 0 {
      g := h;
    } else {
      var f := FailuresAfterSuccess(h, ts, n - 1, limit, seconds);
      Extend(f, Attempt(ts, false), limit, seconds);
      g := f + [Attempt(ts, false)];
    }
  }

  /** Conversely, once a success has been recorded under a lock, `limit` failures at that very
      moment set the next lock: the onsets are kept apart exactly where no success can be
      recorded for a locked key. */
  lemma SuccessUnderLockLetsItBeSetAgain(h: seq<Attempt>, i: nat, k: nat, limit: int, seconds: real) returns (g: seq<Attempt>)
    requires Clocked(h) && i < k < |h| && Onset(h, i, limit, seconds)
    requires h[k].ok && h[k].ts < h[i].ts + seconds
    ensures Clocked(g) && k + 1 < |g| && g[..k + 1] == h[..k + 1]
    ensures Onset(g, |g| - 1, limit, seconds) && g[|g| - 1].ts < h[i].ts + seconds
  {
    var f := FailuresAfterSuccess(h[..k + 1], h[k].ts, AtLeastOne(limit) - 1, limit, seconds);
    g := f + [Attempt(h[k].ts, false)];
    LastFailureLocks(f, h[k].ts, limit, seconds);
    assert g[..k + 1] == f[..k + 1];
  }

  lemma LastFailureLocks(f: seq<Attempt>, ts: real, limit: int, seconds: real)
    requires Clocked(f) && f != [] && f[|f| - 1].ts == ts
    requires RowAfter(f, limit, seconds) == if AtLeastOne(limit) == 1 then None else Some(Row(AtLeastOne(limit) - 1, 0.0))
    ensures Clocked(f + [Attempt(ts, false)]) && Onset(f + [Attempt(ts, false)], |f|, limit, seconds)
  {
    var g := f + [Attempt(ts, false)];
    Extend(f, Attempt(ts, false), limit, seconds);
    assert g[..|f|] == f && g[..|f| + 1] == g;
  }

  /** And a success does clear a lock early: the table alone does not keep locks apart. */
  lemma ClearedLockSetAgainAtOnce(seconds: real) returns (h: seq<Attempt>)
    requires seconds > 0.0
    ensures Clocked(h) && |h| == 3 && h[0].ts == h[2].ts
    ensures Onset(h, 0, 1, seconds) && Onset(h, 2, 1, seconds)
  {
    h := [Attempt(0.0, false), Attempt(0.0, true), Attempt(0.0, false)];
    assert h[..0] == [];
    RowStep(h, 0, 1, seconds);
    RowStep(h, 1, 1, seconds);
    RowStep(h, 2, 1, seconds);
  }

  class Table {
    var rows: map<string, Row>

    constructor ()
      ensures rows == map[]
    {
      rows := map[];
    }

    method IsLocked(key: string, now: real) returns (locked: bool)
      ensures locked == Locked(Get(rows, key), now)
    {
      return key in rows && now < rows[key].until;
    }

    method RecordAttempt(key: string, ok: bool, limit: int, seconds: real, ts: real)
      requires ts >= 0.0
      modifies this
      ensures rows == Put(old(rows), key, Record(Get(old(rows), key), ts, ok, limit, seconds))
    {
      if ok {
        rows := rows - {key};
        return;
      }
      // INSERT ... ON CONFLICT DO UPDATE, then RETURNING fails, lock_until
      var fails, until := 1, 0.0;
      if key in rows {
        fails := if ts < rows[key].until then rows[key].fails else rows[key].fails + 1;
        until := if ts < rows[key].until then rows[key].until else 0.0;
      }
      rows := rows[key := Row(fails, until)];
      if ts < until {
        return;
      }
      if fails >= limit {
        rows := rows[key := Row(0, ts + seconds)];
      }
    }
  }
}
