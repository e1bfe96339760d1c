/** Floods of requests of one address at one instant: the bounds on guesses in flight are met,
    and two locks can be set with no time between them. */
module GuessFlood {
  import opened Basics
  import opened ChallengeGate
  import opened GuessesInFlight
  import RateLimit
  import Lockout
  import SecondLock

  /** `n` requests pass the check, then all guess (the first `wrong` of them wrongly), then
      the first `done` record: all at time zero. */
  function Flood(a: Address, n: nat, wrong: nat, done: nat): (run: seq<Step>)
    ensures |run| == 2 * n + done
    ensures forall k :: 0 <= k < |run| ==> run[k] == FloodStep(a, n, wrong, k) && run[k].ts == 0.0
  {
    seq(2 * n + done, k requires 0 <= k < 2 * n + done => FloodStep(a, n, wrong, k))
  }

  function FloodStep(a: Address, n: nat, wrong: nat, k: nat): Step {
    if k < n then Check(k, a, 0.0)
    else if k < 2 * n then Guess(k - n, k - n >= wrong, 0.0)
    else Record(k - 2 * n, 0.0)
  }

  function Stage(a: Address, wrong: nat, g: nat, i: nat): Request {
    Request(a, if i < g then Some(i >= wrong) else None)
  }

  /** After `c` checks, `g` guesses and `r` records. */
  function Flooded(a: Address, wrong: nat, c: nat, g: nat, r: nat): World {
    World(Rows(if r == 0 then map[] else map[a := if r < FAILURES then Lockout.Row(r, 0.0) else Lockout.Row(0, LOCK)],
               if g == 0 then map[] else map[a.signer := RateLimit.Row(g, 0.0)]),
          map i: nat | r <= i < c :: Stage(a, wrong, g, i))
  }

  lemma OneCheck(a: Address, wrong: nat, c: nat)
    ensures Next(Flooded(a, wrong, c, 0, 0), Check(c, a, 0.0)) == Flooded(a, wrong, c + 1, 0, 0)
  {
  }

  lemma OneGuess(a: Address, wrong: nat, n: nat, g: nat)
    requires g < n <= GUESSES
    ensures var w, s := Flooded(a, wrong, n, g, 0), Guess(g, g >= wrong, 0.0);
            Next(w, s) == Flooded(a, wrong, n, g + 1, 0) && (Wrong(w, s, a) <==> g < wrong)
  {
    assert Stage(a, wrong, g, g) == Request(a, None);
  }

  lemma OneRecord(a: Address, wrong: nat, n: nat, r: nat)
    requires r < wrong <= n <= GUESSES && r < FAILURES
    ensures var w, s := Flooded(a, wrong, n, n, r), Record(r, 0.0);
            && Next(w, s) == Flooded(a, wrong, n, n, r + 1) && !Wrong(w, s, a) && !Succeeds(w, s, a)
            && (SetsLock(w, s, a) <==> r + 1 == FAILURES)
  {
    assert Stage(a, wrong, n, r) == Request(a, Some(false));
  }

  lemma {:induction false} FloodChecks(a: Address, n: nat, wrong: nat, done: nat, k: nat)
    requires k <= n
    ensures At(Flood(a, n, wrong, done), k) == Flooded(a, wrong, k, 0, 0)
    ensures WrongIn(Flood(a, n, wrong, done), a, 0, k) == 0
  {
    if k > 0 {
      FloodChecks(a, n, wrong, done, k - 1);
      OneCheck(a, wrong, k - 1);
    }
  }

  lemma {:induction false} FloodGuesses(a: Address, n: nat, wrong: nat, done: nat, k: nat)
    requires k <= n <= GUESSES
    ensures At(Flood(a, n, wrong, done), n + k) == Flooded(a, wrong, n, k, 0)
    ensures WrongIn(Flood(a, n, wrong, done), a, 0, n + k) == if k <= wrong then k else wrong
  {
    if k == 0 {
      FloodChecks(a, n, wrong, done, n);
    } else {
      FloodGuesses(a, n, wrong, done, k - 1);
      OneGuess(a, wrong, n, k - 1);
      assert Flood(a, n, wrong, done)[n + k - 1] == Guess(k - 1, k - 1 >= wrong, 0.0);
    }
  }

  lemma {:induction false} FloodRecords(a: Address, n: nat, wrong: nat, done: nat, k: nat)
    requires k <= done <= FAILURES && done <= wrong <= n <= GUESSES
    ensures At(Flood(a, n, wrong, done), 2 * n + k) == Flooded(a, wrong, n, n, k)
    ensures WrongIn(Flood(a, n, wrong, done), a, 0, 2 * n + k) == wrong
  {
    var run := Flood(a, n, wrong, done);
    if k == 0 {
      FloodGuesses(a, n, wrong, done, n);
    } else {
      FloodRecords(a, n, wrong, done, k - 1);
      OneRecord(a, wrong, n, k - 1);
      assert run[2 * n + k - 1] == Record(k - 1, 0.0);
    }
  }

  lemma FloodOutcomes(a: Address, n: nat, wrong: nat)
    requires FAILURES <= wrong <= n <= GUESSES
    ensures var run := Flood(a, n, wrong, FAILURES);
            NoSuccess(run, a, 0, |run|) && Onset(run, a, |run| - 1)
  {
    var run := Flood(a, n, wrong, FAILURES);
    forall k | 2 * n <= k < |run|
      ensures !Success(run, a, k) && (k == |run| - 1 ==> Onset(run, a, k))
    {
      FloodRecords(a, n, wrong, FAILURES, k - 2 * n);
      OneRecord(a, wrong, n, k - 2 * n);
    }
  }

  /** The first input: forty wrong guesses of one address at one instant all pass the check, are
      admitted and are compared before any is recorded. */
  lemma FortyGuessesBeforeARecord(a: Address) returns (run: seq<Step>)
    ensures Clocked(run) && Brief(run, 0, |run|) && forall k :: 0 <= k < |run| ==> run[k].ts == 0.0
    ensures forall k :: 0 <= k < |run| ==> !run[k].Record?
    ensures WrongIn(run, a, 0, |run|) == 40 && RowAt(run, a, |run|) == None
  {
    run := Flood(a, 40, 40, 0);
    FloodGuesses(a, 40, 40, 0, 40);
  }

  lemma FlightSize(a: Address, n: nat, r: nat)
    requires r <= n
    ensures |InFlight(Flooded(a, n, n, n, r), a)| == n - r
  {
    assert InFlight(Flooded(a, n, n, n, r), a) == RateLimit.Interval(r, n - r);
  }

  /** The bound on wrong guesses is met: with any number up to 35 in flight when the lock is set,
      some run compares five and that many more wrong guesses at one instant. */
  lemma FiveAndInFlightIsMet(a: Address, extra: nat) returns (run: seq<Step>)
    requires extra <= GUESSES - FAILURES
    ensures Clocked(run) && Brief(run, 0, |run|) && NoSuccess(run, a, 0, |run|)
    ensures Onset(run, a, |run| - 1) && |InFlight(At(run, |run|), a)| == extra
    ensures WrongIn(run, a, 0, |run|) == FAILURES + extra
  {
    var n := FAILURES + extra;
    run := Flood(a, n, n, FAILURES);
    FloodRecords(a, n, n, FAILURES, FAILURES);
    FloodOutcomes(a, n, n);
    FlightSize(a, n, FAILURES);
  }

  lemma RightOneClears(a: Address, n: nat, wrong: nat)
    requires FAILURES <= wrong < n <= GUESSES
    ensures var w := Flooded(a, wrong, n, n, FAILURES);
            Succeeds(w, Record(wrong, 0.0), a) && Next(w, Record(wrong, 0.0)).rows.rates == w.rows.rates
  {
    assert Stage(a, wrong, n, wrong) == Request(a, Some(true));
  }

  /** Five of the wrong ones set the lock, and a right one clears it. */
  lemma SetAndCleared(a: Address, n: nat, wrong: nat) returns (f: seq<Step>)
    requires FAILURES <= wrong < n <= GUESSES
    ensures SecondLock.Latest(f, 0.0) && |f| == 2 * n + FAILURES + 1 && forall k :: 0 <= k < |f| ==> f[k].ts == 0.0
    ensures Onset(f, a, |f| - 2) && Success(f, a, |f| - 1)
    ensures Get(SecondLock.End(f).rows.rates, a.signer) == Some(RateLimit.Row(n, 0.0))
  {
    var h, s := Flood(a, n, wrong, FAILURES), Record(wrong, 0.0);
    FloodRecords(a, n, wrong, FAILURES, FAILURES);
    FloodOutcomes(a, n, wrong);
    RightOneClears(a, n, wrong);
    f := h + [s];
    SecondLock.EndStep(h, s);
    SecondLock.AtPrefix(h, [s], |h| - 1);
  }

  /** The second input, for any flood with five or more wrong guesses and a right one, six in
      all for one: five wrong ones set the lock, the right one clears it, and five more wrong
      ones set a second lock at the same instant. */
  lemma TwoLocksAtOneInstant(a: Address, n: nat, wrong: nat) returns (run: seq<Step>, i: nat, k: nat)
    requires FAILURES <= wrong < n <= GUESSES - FAILURES
    ensures Clocked(run) && i < k < |run| - 1 && Onset(run, a, i) && Success(run, a, k) && Onset(run, a, |run| - 1)
    ensures run[|run| - 1].ts == run[i].ts
  {
    var f := SetAndCleared(a, n, wrong);
    i, k := |f| - 2, |f| - 1;
    SecondLock.ClearedNeedsFive(f, a, 0.0);
    run := SecondLock.LockCanBeSet(f, a, 0.0, LOCK, FAILURES);
    assert run == f + run[|f|..];
    SecondLock.AtPrefix(f, run[|f|..], i);
    SecondLock.AtPrefix(f, run[|f|..], k);
    assert run[i] == f[i] && run[k] == f[k];
  }
}
