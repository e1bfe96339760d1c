/** Challenge guesses by any number of requests at once: the three transactions of each request
    (module ChallengeGate) interleave with those of all others. A guess is timed when it is
    counted in the window. A request that dies stays where it is, past the check and unrecorded. */
module GuessesInFlight {
  import opened Basics
  import opened ChallengeGate
  import RateLimit
  import Lockout

  /** A request past the lock check: not yet counted, or counted and compared, and not yet
      recorded. */
  datatype Request = Request(at: Address, guess: Option<bool>)

  datatype World = World(rows: Rows, flight: map<nat, Request>)

  datatype Step =
    | Check(r: nat, at: Address, ts: real)
    | Guess(r: nat, matches: bool, ts: real)
    | Record(r: nat, ts: real)

  function Next(w: World, s: Step): World {
    match s
    case Check(r, at, ts) =>
      if r in w.flight || Shut(w.rows, at, ts) then w
      else w.(flight := w.flight[r := Request(at, None)])
    case Guess(r, matches, ts) =>
      if !Waits(w, r) then w
      else
        var at := w.flight[r].at;
        World(CountHit(w.rows, at.signer, ts),
              if Admits(w.rows, at.signer, ts) then w.flight[r := Request(at, Some(matches))] else w.flight - {r})
    case Record(r, ts) =>
      if !IsCompared(w, r) then w
      else World(Told(w.rows, w.flight[r].at, ts, w.flight[r].guess.value), w.flight - {r})
  }

  predicate Waits(w: World, r: nat) {
    r in w.flight && w.flight[r].guess.None?
  }

  predicate IsCompared(w: World, r: nat) {
    r in w.flight && w.flight[r].guess.Some?
  }

  /** After the first `n` steps. */
  function At(run: seq<Step>, n: nat): World
    requires n <= |run|
  {
    if n == 0 then World(Rows(map[], map[]), map[]) else Next(At(run, n - 1), run[n - 1])
  }

  predicate Clocked(run: seq<Step>) {
    (forall i :: 0 <= i < |run| ==> run[i].ts >= 0.0) && forall i, j :: 0 <= i <= j < |run| ==> run[i].ts <= run[j].ts
  }

  /** A request's three steps with nothing between them make the step of a whole request. */
  lemma UndisturbedIsVerify(w: World, r: nat, at: Address, ts: real, matches: bool)
    requires r !in w.flight
    ensures Next(Next(Next(w, Check(r, at, ts)), Guess(r, matches, ts)), Record(r, ts))
         == World(Verify(w.rows, at, ts, matches).0, w.flight)
  {
    var v := Next(w, Check(r, at, ts));
    var u := Next(v, Guess(r, matches, ts));
    if !Shut(w.rows, at, ts) {
      assert Waits(v, r) && v.flight - {r} == w.flight;
      if Admits(w.rows, at.signer, ts) {
        assert IsCompared(u, r) && u.flight - {r} == w.flight;
      }
    }
  }

  // At most 80 guesses an hour

  predicate Counts(w: World, s: Step, signer: nat) {
    s.Guess? && Waits(w, s.r) && w.flight[s.r].at.signer == signer
  }

  predicate Compares(w: World, s: Step, signer: nat) {
    Counts(w, s, signer) && Admits(w.rows, signer, s.ts)
  }

  function HitStep(w: World, s: Step, signer: nat): seq<real> {
    if Counts(w, s, signer) then [s.ts] else []
  }

  /** The times at which requests about `signer` were counted. */
  function Hits(run: seq<Step>, n: nat, signer: nat): seq<real>
    requires n <= |run|
  {
    if n == 0 then [] else Hits(run, n - 1, signer) + HitStep(At(run, n - 1), run[n - 1], signer)
  }

  function ComparedStep(w: World, s: Step, signer: nat, from: real): nat {
    if Compares(w, s, signer) && from <= s.ts < from + WINDOW then 1 else 0
  }

  /** How many of the first `n` steps compare a guess at `signer` at a time in
      [from, from + WINDOW). */
  function ComparedWithin(run: seq<Step>, n: nat, signer: nat, from: real): nat
    requires n <= |run|
  {
    if n == 0 then 0
    else ComparedWithin(run, n - 1, signer, from) + ComparedStep(At(run, n - 1), run[n - 1], signer, from)
  }

  lemma RateRowStep(w: World, s: Step, signer: nat, calls: seq<real>)
    requires Get(w.rows.rates, signer) == RateLimit.RowAfter(calls, WINDOW)
    ensures Get(Next(w, s).rows.rates, signer) == RateLimit.RowAfter(calls + HitStep(w, s, signer), WINDOW)
  {
    assert (calls + [s.ts])[..|calls|] == calls && calls + [] == calls;
  }

  /** The signer's rate row is the limiter's row after the signer's hits. */
  lemma {:induction false} RateRowFollowsHits(run: seq<Step>, n: nat, signer: nat)
    requires n <= |run|
    ensures Get(At(run, n).rows.rates, signer) == RateLimit.RowAfter(Hits(run, n, signer), WINDOW)
  {
    if n > 0 {
      var w, s, calls := At(run, n - 1), run[n - 1], Hits(run, n - 1, signer);
      RateRowFollowsHits(run, n - 1, signer);
      RateRowStep(w, s, signer, calls);
      assert Hits(run, n, signer) == calls + HitStep(w, s, signer);
    }
  }

  predicate EndsBy(calls: seq<real>, ts: real) {
    forall i :: 0 <= i < |calls| ==> calls[i] <= ts
  }

  lemma {:induction false} HitsClocked(run: seq<Step>, n: nat, signer: nat)
    requires n <= |run| && Clocked(run)
    ensures RateLimit.Nondecreasing(Hits(run, n, signer))
    ensures n > 0 ==> EndsBy(Hits(run, n, signer), run[n - 1].ts)
  {
    if n > 0 {
      HitsClocked(run, n - 1, signer);
    }
  }

  predicate Fresh(more: seq<real>, i: nat, from: real)
    requires i < |more|
  {
    from <= more[i] < from + WINDOW && RateLimit.Admitted(more, i, GUESSES, WINDOW)
  }

  lemma SameBefore(calls: seq<real>, ts: real, i: nat, from: real)
    requires i < |calls|
    ensures Fresh(calls + [ts], i, from) == Fresh(calls, i, from)
  {
    assert (calls + [ts])[..i + 1] == calls[..i + 1];
  }

  function FreshOnes(calls: seq<real>, from: real): set<nat> {
    set i | 0 <= i < |calls| && Fresh(calls, i, from)
  }

  lemma SetGrows(was: set<nat>, now: set<nat>, n: nat, added: bool)
    requires n !in was && forall i :: i in now <==> i in was || (i == n && added)
    ensures |now| == |was| + if added then 1 else 0
  {
    if added {
      assert now == was + {n};
    } else {
      assert now == was;
    }
  }

  lemma OneMoreHit(calls: seq<real>, ts: real, from: real)
    ensures |FreshOnes(calls + [ts], from)|
         == |FreshOnes(calls, from)| + if Fresh(calls + [ts], |calls|, from) then 1 else 0
  {
    forall i | 0 <= i < |calls|
      ensures Fresh(calls + [ts], i, from) == Fresh(calls, i, from)
    {
      SameBefore(calls, ts, i, from);
    }
    SetGrows(FreshOnes(calls, from), FreshOnes(calls + [ts], from), |calls|, Fresh(calls + [ts], |calls|, from));
  }

  lemma LastHit(calls: seq<real>, ts: real, from: real)
    ensures Fresh(calls + [ts], |calls|, from)
         == (from <= ts < from + WINDOW && RateLimit.Hit(RateLimit.RowAfter(calls, WINDOW), ts, WINDOW).count <= GUESSES)
  {
    var more := calls + [ts];
    assert more[..|calls|] == calls && more[..|calls| + 1] == more;
  }

  lemma ComparedStepIsAdmitted(w: World, s: Step, signer: nat, calls: seq<real>, from: real)
    requires Get(w.rows.rates, signer) == RateLimit.RowAfter(calls, WINDOW)
    ensures |FreshOnes(calls + HitStep(w, s, signer), from)| == |FreshOnes(calls, from)| + ComparedStep(w, s, signer, from)
  {
    OneMoreHit(calls, s.ts, from);
    LastHit(calls, s.ts, from);
    assert calls + [] == calls;
  }

  /** Every compared guess is one call that the signer's window admitted. */
  lemma {:induction false} ComparedAreAdmitted(run: seq<Step>, n: nat, signer: nat, from: real)
    requires n <= |run|
    ensures ComparedWithin(run, n, signer, from) == |FreshOnes(Hits(run, n, signer), from)|
  {
    if n > 0 {
      var w, s, calls := At(run, n - 1), run[n - 1], Hits(run, n - 1, signer);
      ComparedAreAdmitted(run, n - 1, signer, from);
      RateRowFollowsHits(run, n - 1, signer);
      ComparedStepIsAdmitted(w, s, signer, calls, from);
      assert Hits(run, n, signer) == calls + HitStep(w, s, signer);
    }
  }

  /** In every interleaving at most 80 guesses at one signer are compared in any hour, from
      however many addresses and requests at once. */
  lemma AtMostEightyGuessesAnHour(run: seq<Step>, signer: nat, from: real)
    requires Clocked(run)
    ensures ComparedWithin(run, |run|, signer, from) <= 80
  {
    var calls := Hits(run, |run|, signer);
    ComparedAreAdmitted(run, |run|, signer, from);
    HitsClocked(run, |run|, signer);
    assert FreshOnes(calls, from) == RateLimit.AdmittedWithin(calls, GUESSES, WINDOW, from);
    RateLimit.IntervalAdmitsAtMostTwice(calls, GUESSES, WINDOW, from);
  }

  // The lock of one address

  /** The address's requests past the check and unrecorded; those not yet counted; those
      compared. */
  function InFlight(w: World, a: Address): set<nat> {
    set r | r in w.flight && w.flight[r].at == a
  }

  function Waiting(w: World, a: Address): set<nat> {
    set r | r in w.flight && w.flight[r].at == a && w.flight[r].guess.None?
  }

  function Done(w: World, a: Address): set<nat> {
    set r | r in w.flight && w.flight[r].at == a && w.flight[r].guess.Some?
  }

  lemma FlightParts(w: World, a: Address)
    ensures |InFlight(w, a)| == |Waiting(w, a)| + |Done(w, a)|
  {
    assert InFlight(w, a) == Waiting(w, a) + Done(w, a);
    assert Waiting(w, a) !! Done(w, a);
  }

  predicate Wrong(w: World, s: Step, a: Address) {
    Compares(w, s, a.signer) && w.flight[s.r].at == a && !s.matches
  }

  predicate Records(w: World, s: Step, a: Address) {
    s.Record? && IsCompared(w, s.r) && w.flight[s.r].at == a
  }

  predicate Succeeds(w: World, s: Step, a: Address) {
    Records(w, s, a) && w.flight[s.r].guess == Some(true)
  }

  predicate RecordsWrong(w: World, s: Step, a: Address) {
    Records(w, s, a) && w.flight[s.r].guess == Some(false)
  }

  predicate Enters(w: World, s: Step, a: Address) {
    s.Check? && s.at == a && s.r !in w.flight && !Shut(w.rows, a, s.ts)
  }

  /** What one step does to the address's lock row: only its own recorded outcomes touch it. */
  lemma LockStep(w: World, s: Step, a: Address)
    ensures Get(Next(w, s).rows.locks, a)
         == if Records(w, s, a) then NextLock(w.rows, a, s.ts, w.flight[s.r].guess.value) else Get(w.rows.locks, a)
  {
  }

  /** What a request is answered, told by what became of its steps: it passes exactly if its
      record is a success; the window turned it away exactly if it waited after the check and
      left at its guess; it is locked out exactly if the check turned it away, or its wrong
      outcome was recorded and the address is shut behind it. */
  lemma UndisturbedAnswer(w: World, r: nat, a: Address, ts: real, matches: bool)
    requires r !in w.flight
    ensures var v := Next(w, Check(r, a, ts));
            var u := Next(v, Guess(r, matches, ts));
            var z := Next(u, Record(r, ts));
            var answer := Verify(w.rows, a, ts, matches).1;
            && (answer == Passed <==> Succeeds(u, Record(r, ts), a))
            && (answer == TooManyGuesses <==> Waits(v, r) && r !in u.flight)
            && (answer == TooManyFailures <==>
                  r !in v.flight || (RecordsWrong(u, Record(r, ts), a) && Shut(z.rows, a, ts)))
            && (answer == Failed <==> RecordsWrong(u, Record(r, ts), a) && !Shut(z.rows, a, ts))
            && (answer == Passed ==> matches) && (answer == Failed ==> !matches)
  {
    var v := Next(w, Check(r, a, ts));
    if !Shut(w.rows, a, ts) {
      assert Waits(v, r);
    }
  }

  function One(b: bool): nat {
    if b then 1 else 0
  }

  lemma Moved(was: set<nat>, now: set<nat>, r: nat)
    requires forall x :: x != r ==> (x in now <==> x in was)
    ensures |now| + One(r in was) == |was| + One(r in now)
  {
    assert now - {r} == was - {r};
    assert r in was ==> was == (was - {r}) + {r};
    assert r in now ==> now == (now - {r}) + {r};
    assert r !in was ==> was == was - {r};
    assert r !in now ==> now == now - {r};
  }

  /** Each wrong guess takes a request from those waiting; only the check brings one there. */
  lemma WaitingStep(w: World, s: Step, a: Address)
    ensures |Waiting(Next(w, s), a)| + One(Wrong(w, s, a)) <= |Waiting(w, a)| + One(Enters(w, s, a))
  {
    Moved(Waiting(w, a), Waiting(Next(w, s), a), s.r);
  }

  /** Each wrong guess brings a request to those compared; only a record takes one away. */
  lemma DoneStep(w: World, s: Step, a: Address)
    ensures |Done(Next(w, s), a)| + One(Records(w, s, a)) >= |Done(w, a)| + One(Wrong(w, s, a))
  {
    Moved(Done(w, a), Done(Next(w, s), a), s.r);
  }

  /** How many wrong guesses of the address are compared in steps i to n - 1. */
  function WrongIn(run: seq<Step>, a: Address, i: nat, n: nat): nat
    requires n <= |run|
    decreases n
  {
    if n <= i then 0 else WrongIn(run, a, i, n - 1) + One(Wrong(At(run, n - 1), run[n - 1], a))
  }

  function RecordsIn(run: seq<Step>, a: Address, i: nat, n: nat): nat
    requires n <= |run|
    decreases n
  {
    if n <= i then 0 else RecordsIn(run, a, i, n - 1) + One(Records(At(run, n - 1), run[n - 1], a))
  }

  lemma {:induction false} WrongSplits(run: seq<Step>, a: Address, i: nat, m: nat, n: nat)
    requires i <= m <= n <= |run|
    ensures WrongIn(run, a, i, n) == WrongIn(run, a, i, m) + WrongIn(run, a, m, n)
    decreases n
  {
    if m < n {
      WrongSplits(run, a, i, m, n - 1);
    }
  }

  /** Step `k` records a success of the address. */
  predicate Success(run: seq<Step>, a: Address, k: nat)
    requires k < |run|
  {
    Succeeds(At(run, k), run[k], a)
  }

  predicate NoSuccess(run: seq<Step>, a: Address, i: nat, n: nat)
    requires n <= |run|
  {
    forall k {:trigger Success(run, a, k)} :: i <= k < n ==> !Success(run, a, k)
  }

  function RowAt(run: seq<Step>, a: Address, n: nat): Option<Lockout.Row>
    requires n <= |run|
  {
    Get(At(run, n).rows.locks, a)
  }

  /** The step records the failure that locks the address out. */
  predicate SetsLock(w: World, s: Step, a: Address) {
    && Records(w, s, a) && w.flight[s.r].guess == Some(false)
    && !Shut(w.rows, a, s.ts) && Fails(Get(w.rows.locks, a)) + 1 >= FAILURES
  }

  function Fails(row: Option<Lockout.Row>): nat {
    if row.Some? then row.value.fails else 0
  }

  lemma LockIsSet(w: World, s: Step, a: Address)
    requires SetsLock(w, s, a) && s.ts >= 0.0
    ensures Get(Next(w, s).rows.locks, a) == Some(Lockout.Row(0, s.ts + LOCK))
  {
  }

  predicate Onset(run: seq<Step>, a: Address, k: nat)
    requires k < |run|
  {
    SetsLock(At(run, k), run[k], a)
  }

  predicate NoOnset(run: seq<Step>, a: Address, i: nat, n: nat)
    requires n <= |run|
  {
    forall k {:trigger Onset(run, a, k)} :: i <= k < n ==> !Onset(run, a, k)
  }

  lemma LockedStep(w: World, s: Step, a: Address, row: Lockout.Row)
    requires Get(w.rows.locks, a) == Some(row) && s.ts < row.until && !Succeeds(w, s, a)
    ensures Get(Next(w, s).rows.locks, a) == Some(row) && InFlight(Next(w, s), a) <= InFlight(w, a)
    ensures |Waiting(Next(w, s), a)| + One(Wrong(w, s, a)) <= |Waiting(w, a)|
  {
    LockStep(w, s, a);
    WaitingStep(w, s, a);
  }

  /** Through a lock: the row stands, nobody enters, and each wrong guess uses up a request that
      was waiting. */
  lemma {:induction false} ThroughALock(run: seq<Step>, a: Address, m: nat, n: nat, row: Lockout.Row)
    requires m <= n <= |run| && NoSuccess(run, a, m, n) && RowAt(run, a, m) == Some(row)
    requires forall k :: m <= k < n ==> run[k].ts < row.until
    ensures RowAt(run, a, n) == Some(row)
    ensures InFlight(At(run, n), a) <= InFlight(At(run, m), a)
    ensures WrongIn(run, a, m, n) + |Waiting(At(run, n), a)| <= |Waiting(At(run, m), a)|
    decreases n
  {
    if m < n {
      ThroughALock(run, a, m, n - 1, row);
      assert !Success(run, a, n - 1);
      LockedStep(At(run, n - 1), run[n - 1], a, row);
    }
  }

  lemma {:induction false} FailsStayBelow(run: seq<Step>, a: Address, n: nat)
    requires n <= |run| && Clocked(run)
    ensures RowAt(run, a, n).Some? ==> RowAt(run, a, n).value.fails < FAILURES
  {
    if n > 0 {
      FailsStayBelow(run, a, n - 1);
      LockStep(At(run, n - 1), run[n - 1], a);
    }
  }

  predicate Open(row: Option<Lockout.Row>, ts: real) {
    row.Some? ==> row.value.until <= ts
  }

  /** One step while the lock is open, and not the step that sets it. */
  lemma OpenStep(w: World, s: Step, a: Address, t0: real)
    requires 0.0 <= t0 <= s.ts && Open(Get(w.rows.locks, a), t0) && Fails(Get(w.rows.locks, a)) < FAILURES
    requires !Succeeds(w, s, a) && !SetsLock(w, s, a)
    ensures Open(Get(Next(w, s).rows.locks, a), t0)
    ensures Fails(Get(Next(w, s).rows.locks, a)) == Fails(Get(w.rows.locks, a)) + One(Records(w, s, a))
  {
    LockStep(w, s, a);
  }

  /** While no lock is set: each wrong guess is recorded as a failure, or still to be recorded. */
  lemma {:induction false} WhileOpen(run: seq<Step>, a: Address, i: nat, n: nat)
    requires Clocked(run) && i <= n <= |run| && i < |run| && Open(RowAt(run, a, i), run[i].ts)
    requires NoSuccess(run, a, i, n) && NoOnset(run, a, i, n)
    ensures Open(RowAt(run, a, n), run[i].ts) && RecordsIn(run, a, i, n) <= Fails(RowAt(run, a, n)) < FAILURES
    ensures WrongIn(run, a, i, n) <= RecordsIn(run, a, i, n) + |Done(At(run, n), a)|
    decreases n
  {
    FailsStayBelow(run, a, n);
    if i < n {
      WhileOpen(run, a, i, n - 1);
      assert !Success(run, a, n - 1) && !Onset(run, a, n - 1);
      OpenStep(At(run, n - 1), run[n - 1], a, run[i].ts);
      DoneStep(At(run, n - 1), run[n - 1], a);
    }
  }

  lemma OnsetAdds(run: seq<Step>, a: Address, i: nat, k: nat)
    requires Clocked(run) && i <= k < |run| && Open(RowAt(run, a, i), run[i].ts)
    requires NoSuccess(run, a, i, k) && NoOnset(run, a, i, k) && Onset(run, a, k)
    ensures WrongIn(run, a, i, k + 1) <= FAILURES + |Done(At(run, k + 1), a)|
  {
    WhileOpen(run, a, i, k);
    DoneStep(At(run, k), run[k], a);
  }

  /** The first step from `i` on that sets a lock ends at `m`; without one, `m` is `n`. */
  lemma FirstOnset(run: seq<Step>, a: Address, i: nat, n: nat) returns (m: nat)
    requires i <= n <= |run|
    ensures i <= m <= n
    ensures if m > i && Onset(run, a, m - 1) then NoOnset(run, a, i, m - 1) else m == n && NoOnset(run, a, i, n)
  {
    m := i;
    while m < n
      invariant i <= m <= n && NoOnset(run, a, i, m)
    {
      m := m + 1;
      if Onset(run, a, m - 1) {
        return;
      }
    }
  }

  /** Steps i to b - 1 lie within less than one lock. */
  predicate Brief(run: seq<Step>, i: nat, b: nat) {
    i < b <= |run| && run[b - 1].ts < run[i].ts + LOCK
  }

  /** Five once the lock is set, four until then. */
  function Recorded(run: seq<Step>, a: Address, m: nat): nat
    requires m <= |run|
  {
    if m > 0 && Onset(run, a, m - 1) then FAILURES else FAILURES - 1
  }

  predicate EndsStretch(run: seq<Step>, a: Address, i: nat, b: nat, m: nat)
    requires b <= |run|
  {
    i <= m <= b && (m < b ==> m > i && Onset(run, a, m - 1))
  }

  lemma StretchIsBrief(run: seq<Step>, i: nat, k: nat, b: nat)
    requires Clocked(run) && Brief(run, i, b) && i <= k < b
    ensures forall j :: k < j < b ==> run[j].ts < run[k].ts + LOCK
  {
    assert run[i].ts <= run[k].ts && forall j :: k < j < b ==> run[j].ts <= run[b - 1].ts;
  }

  /** From an open lock: five, and the requests in flight when the lock is set (or, if none
      is, at the end). */
  lemma FromOpen(run: seq<Step>, a: Address, i: nat, b: nat) returns (m: nat)
    requires Clocked(run) && Brief(run, i, b) && NoSuccess(run, a, i, b) && Open(RowAt(run, a, i), run[i].ts)
    ensures EndsStretch(run, a, i, b, m)
    ensures WrongIn(run, a, i, b) <= Recorded(run, a, m) + |InFlight(At(run, m), a)|
  {
    m := FirstOnset(run, a, i, b);
    FlightParts(At(run, m), a);
    if m > i && Onset(run, a, m - 1) {
      OnsetAdds(run, a, i, m - 1);
      StretchIsBrief(run, i, m - 1, b);
      LockIsSet(At(run, m - 1), run[m - 1], a);
      ThroughALock(run, a, m, b, Lockout.Row(0, run[m - 1].ts + LOCK));
      WrongSplits(run, a, i, m, b);
    } else {
      WhileOpen(run, a, i, b);
    }
  }

  /** Where a lock that stands at `i` has run out. */
  lemma LockEnds(run: seq<Step>, a: Address, i: nat, b: nat) returns (p: nat)
    requires Clocked(run) && i < b <= |run| && NoSuccess(run, a, i, b)
    ensures i <= p <= b && (forall k :: i <= k < p ==> Lockout.Locked(RowAt(run, a, i), run[k].ts))
    ensures p < b ==> Open(RowAt(run, a, p), run[p].ts)
    ensures !Lockout.Locked(RowAt(run, a, i), run[i].ts) ==> p == i
  {
    p := i;
    while p < b && Lockout.Locked(RowAt(run, a, i), run[p].ts)
      invariant i <= p <= b && forall k :: i <= k < p ==> Lockout.Locked(RowAt(run, a, i), run[k].ts)
    {
      p := p + 1;
    }
    if p > i {
      assert Lockout.Locked(RowAt(run, a, i), run[i].ts);
      ThroughALock(run, a, i, p, RowAt(run, a, i).value);
    }
  }

  /** In any stretch of less than 900 seconds in which no success of an address is recorded, the
      wrong guesses compared from it are at most five, and the address's requests past the
      check and unrecorded when the lock is set; or, if it is not set, four and those at the
      end of the stretch. If a lock stands as the stretch begins, those then waiting to guess
      come on top. */
  lemma WrongGuessesAtMostFiveAndInFlight(run: seq<Step>, a: Address, i: nat, b: nat) returns (m: nat)
    requires Clocked(run) && Brief(run, i, b) && NoSuccess(run, a, i, b)
    ensures EndsStretch(run, a, i, b, m)
    ensures WrongIn(run, a, i, b) <= Recorded(run, a, m) + |InFlight(At(run, m), a)|
              + if Lockout.Locked(RowAt(run, a, i), run[i].ts) then |Waiting(At(run, i), a)| else 0
  {
    var p := LockEnds(run, a, i, b);
    if p > i {
      assert Lockout.Locked(RowAt(run, a, i), run[i].ts);
      ThroughALock(run, a, i, p, RowAt(run, a, i).value);
      WrongSplits(run, a, i, p, b);
    }
    if p < b {
      assert run[i].ts <= run[p].ts;
      m := FromOpen(run, a, p, b);
    } else {
      m := b;
    }
  }

  /** Two locks of an address set less than 900 seconds apart have a success recorded between
      them, under the first lock, by a request that was in flight when that lock was set. */
  lemma OnsetsApartUnlessInFlightSucceeds(run: seq<Step>, a: Address, i: nat, j: nat) returns (k: nat)
    requires Clocked(run) && i < j < |run| && Onset(run, a, i) && Onset(run, a, j) && run[j].ts < run[i].ts + LOCK
    ensures i < k < j && Success(run, a, k) && run[k].ts < run[i].ts + LOCK
    ensures run[k].r in InFlight(At(run, i + 1), a)
  {
    var row := Lockout.Row(0, run[i].ts + LOCK);
    LockIsSet(At(run, i), run[i], a);
    assert forall x :: i <= x <= j ==> run[x].ts <= run[j].ts;
    k := i + 1;
    while k < j && !Success(run, a, k)
      invariant i < k <= j && NoSuccess(run, a, i + 1, k)
    {
      k := k + 1;
    }
    ThroughALock(run, a, i + 1, k, row);
  }

  /** One request at a time: nobody passes the check while another is in flight. */
  predicate OneAtATime(run: seq<Step>) {
    forall k {:trigger At(run, k)} :: 0 <= k < |run| && run[k].Check? ==> At(run, k).flight == map[]
  }

  /** Then at most one is ever in flight, and it found the lock open as it stands. */
  predicate Lone(w: World, ts: real) {
    forall r, q :: r in w.flight && q in w.flight ==> r == q && !Shut(w.rows, w.flight[r].at, ts)
  }

  lemma LoneStep(w: World, s: Step, ts: real)
    requires Lone(w, ts) && ts <= s.ts && (s.Check? ==> w.flight == map[])
    ensures Lone(Next(w, s), s.ts)
  {
  }

  lemma {:induction false} OneIsInFlight(run: seq<Step>, n: nat)
    requires Clocked(run) && OneAtATime(run) && n <= |run|
    ensures Lone(At(run, n), if n == 0 then 0.0 else run[n - 1].ts)
  {
    if n > 0 {
      OneIsInFlight(run, n - 1);
      LoneStep(At(run, n - 1), run[n - 1], if n == 1 then 0.0 else run[n - 2].ts);
    }
  }

  lemma NobodyAfterRecord(run: seq<Step>, a: Address, k: nat)
    requires Clocked(run) && OneAtATime(run) && k < |run| && Records(At(run, k), run[k], a)
    ensures InFlight(At(run, k + 1), a) == {}
  {
    OneIsInFlight(run, k);
  }

  /** The serial case: with one request at a time, onsets are 900 seconds apart. */
  lemma SerialOnsetsApart(run: seq<Step>, a: Address, i: nat, j: nat)
    requires Clocked(run) && OneAtATime(run) && i < j < |run| && Onset(run, a, i) && Onset(run, a, j)
    ensures run[j].ts >= run[i].ts + LOCK
  {
    if run[j].ts < run[i].ts + LOCK {
      var k := OnsetsApartUnlessInFlightSucceeds(run, a, i, j);
      NobodyAfterRecord(run, a, i);
      assert false;
    }
  }

  lemma AtMostOneInFlight(run: seq<Step>, a: Address, n: nat)
    requires Clocked(run) && OneAtATime(run) && n <= |run|
    ensures |InFlight(At(run, n), a)| <= 1
    ensures n < |run| && Lockout.Locked(RowAt(run, a, n), run[n].ts) ==> InFlight(At(run, n), a) == {}
  {
    OneIsInFlight(run, n);
    var s := InFlight(At(run, n), a);
    if r :| r in s {
      assert s == {r};
      assert n > 0 && n < |run| ==> run[n - 1].ts <= run[n].ts;
    }
  }

  /** The serial case: with one request at a time, five wrong guesses in any stretch of less
      than 900 seconds in which the address does not pass. */
  lemma SerialAtMostFiveWrongGuesses(run: seq<Step>, a: Address, i: nat, b: nat)
    requires Clocked(run) && OneAtATime(run) && Brief(run, i, b) && NoSuccess(run, a, i, b)
    ensures WrongIn(run, a, i, b) <= FAILURES
  {
    var m := WrongGuessesAtMostFiveAndInFlight(run, a, i, b);
    AtMostOneInFlight(run, a, i);
    AtMostOneInFlight(run, a, m);
    if m > 0 && Onset(run, a, m - 1) {
      NobodyAfterRecord(run, a, m - 1);
    }
    assert Waiting(At(run, i), a) <= InFlight(At(run, i), a);
  }
}
