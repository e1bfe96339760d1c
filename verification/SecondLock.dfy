/** When a success recorded under a lock lets the address be locked out again before the first
    lock has run out: exactly when five more wrong guesses can still be recorded in time. */
module SecondLock {
  import opened Basics
  import opened ChallengeGate
  import opened GuessesInFlight
  import RateLimit
  import Lockout

  /** The address's wrong guesses compared and unrecorded. */
  function DoneWrong(w: World, a: Address): set<nat> {
    set r | r in w.flight && w.flight[r] == Request(a, Some(false))
  }

  /** How many guesses the signer's window can still admit before `until`; a new window may
      open before then. */
  function Room(row: Option<RateLimit.Row>, until: real): nat {
    if row.None? || row.value.start + WINDOW < until then GUESSES
    else if row.value.count >= GUESSES then 0
    else GUESSES - row.value.count
  }

  function Supply(w: World, a: Address, until: real): nat {
    |DoneWrong(w, a)| + Room(Get(w.rows.rates, a.signer), until)
  }

  lemma {:induction false} AtPrefix(run: seq<Step>, more: seq<Step>, n: nat)
    requires n <= |run|
    ensures At(run + more, n) == At(run, n)
  {
    if n > 0 {
      AtPrefix(run, more, n - 1);
    }
  }

  lemma {:induction false} UpperBound(s: set<nat>) returns (m: nat)
    ensures forall x :: x in s ==> x < m
  {
    if s == {} {
      m := 0;
    } else {
      var x :| x in s;
      m := UpperBound(s - {x});
      assert forall y :: y in s <==> y == x || y in s - {x};
      if m <= x {
        m := x + 1;
      }
    }
  }

  function End(h: seq<Step>): World {
    At(h, |h|)
  }

  lemma EndStep(h: seq<Step>, s: Step)
    ensures End(h + [s]) == Next(End(h), s) && At(h + [s], |h|) == End(h)
  {
    AtPrefix(h, [s], |h|);
  }

  predicate Continues(g: seq<Step>, h: seq<Step>) {
    |h| <= |g| && g[..|h|] == h
  }

  /** A continuation that records no success of the address. */
  predicate Unpassed(g: seq<Step>, h: seq<Step>, a: Address) {
    Continues(g, h) && NoSuccess(g, a, |h|, |g|)
  }

  lemma UnpassedTrans(g: seq<Step>, f: seq<Step>, h: seq<Step>, a: Address)
    requires Unpassed(g, f, a) && Unpassed(f, h, a)
    ensures Unpassed(g, h, a)
  {
    assert g[..|h|] == g[..|f|][..|h|];
    assert g == f + g[|f|..];
    forall k | |h| <= k < |g|
      ensures !Success(g, a, k)
    {
      if k < |f| {
        AtPrefix(f, g[|f|..], k);
        assert !Success(f, a, k);
      }
    }
  }

  lemma UnpassedStep(h: seq<Step>, s: Step, a: Address)
    requires !Succeeds(End(h), s, a)
    ensures Unpassed(h + [s], h, a) && End(h + [s]) == Next(End(h), s)
  {
    EndStep(h, s);
    assert (h + [s])[..|h|] == h;
  }

  predicate Latest(h: seq<Step>, t: real) {
    Clocked(h) && h != [] && h[|h| - 1].ts == t
  }

  lemma LaterStep(h: seq<Step>, s: Step, t: real)
    requires Latest(h, t) && t <= s.ts
    ensures Latest(h + [s], s.ts)
  {
    assert forall i :: 0 <= i < |h| ==> h[i].ts <= h[|h| - 1].ts;
  }

  /** The lock is open at `t` and `need` more failures would set it. */
  predicate Needs(w: World, a: Address, t: real, need: nat) {
    Open(Get(w.rows.locks, a), t) && 1 <= need <= FAILURES && Fails(Get(w.rows.locks, a)) == FAILURES - need
  }

  /** Recording a wrong guess in flight. */
  lemma RecordWrong(w: World, a: Address, r: nat, t: real, need: nat)
    requires r in DoneWrong(w, a) && t >= 0.0 && Needs(w, a, t, need)
    ensures var v := Next(w, Record(r, t));
            && DoneWrong(v, a) == DoneWrong(w, a) - {r} && v.rows.rates == w.rows.rates
            && if need == 1 then SetsLock(w, Record(r, t), a) else Needs(v, a, t, need - 1)
  {
    LockStep(w, Record(r, t), a);
  }

  /** A new request, from check to comparison, with a wrong guess. */
  lemma GuessWrong(w: World, a: Address, r: nat, t: real)
    requires r !in w.flight && Open(Get(w.rows.locks, a), t) && Admits(w.rows, a.signer, t)
    ensures var v := Next(Next(w, Check(r, a, t)), Guess(r, false, t));
            && v.rows == CountHit(w.rows, a.signer, t) && DoneWrong(v, a) == DoneWrong(w, a) + {r}
  {
    var u := Next(w, Check(r, a, t));
    assert u.flight == w.flight[r := Request(a, None)] && u.rows == w.rows;
  }

  /** A time before `until` at which one more guess is admitted, and what room is left then. */
  lemma TimeToGuess(row: Option<RateLimit.Row>, t: real, until: real) returns (ts: real)
    requires t < until <= t + LOCK && Room(row, until) > 0
    ensures t <= ts < until && RateLimit.Hit(row, ts, WINDOW).count <= GUESSES
    ensures Room(Some(RateLimit.Hit(row, ts, WINDOW)), until) + 1 >= Room(row, until)
    ensures row.Some? && t - row.value.start < WINDOW && row.value.count < GUESSES ==> ts == t
  {
    if row.None? || row.value.start + WINDOW <= t || row.value.count < GUESSES {
      ts := t;
    } else {
      ts := row.value.start + WINDOW;
    }
  }

  /** The window that is open at `t` admits all the guesses that are wanting. */
  predicate Roomy(w: World, a: Address, t: real, need: nat) {
    var row := Get(w.rows.rates, a.signer);
    row.Some? && t - row.value.start < WINDOW && row.value.count + need <= GUESSES + |DoneWrong(w, a)|
  }

  lemma TwoMore(h: seq<Step>, a: Address, r: nat, t: real, ts: real) returns (g: seq<Step>)
    requires Latest(h, t) && t <= ts && r !in End(h).flight
    requires Open(Get(End(h).rows.locks, a), ts) && Admits(End(h).rows, a.signer, ts)
    ensures Unpassed(g, h, a) && Latest(g, ts)
    ensures End(g).rows == CountHit(End(h).rows, a.signer, ts) && DoneWrong(End(g), a) == DoneWrong(End(h), a) + {r}
  {
    var f := h + [Check(r, a, ts)];
    g := f + [Guess(r, false, ts)];
    UnpassedStep(h, Check(r, a, ts), a);
    UnpassedStep(f, Guess(r, false, ts), a);
    UnpassedTrans(g, f, h, a);
    LaterStep(h, Check(r, a, ts), t);
    LaterStep(f, Guess(r, false, ts), ts);
    GuessWrong(End(h), a, r, ts);
  }

  lemma OneRecordMore(h: seq<Step>, a: Address, r: nat, t: real, need: nat) returns (g: seq<Step>)
    requires Latest(h, t) && r in DoneWrong(End(h), a) && Needs(End(h), a, t, need)
    ensures g == h + [Record(r, t)] && Unpassed(g, h, a) && Latest(g, t)
    ensures DoneWrong(End(g), a) == DoneWrong(End(h), a) - {r} && End(g).rows.rates == End(h).rows.rates
    ensures if need == 1 then Onset(g, a, |h|) else Needs(End(g), a, t, need - 1)
  {
    g := h + [Record(r, t)];
    RecordWrong(End(h), a, r, t, need);
    EndStep(h, Record(r, t));
    UnpassedStep(h, Record(r, t), a);
    LaterStep(h, Record(r, t), t);
  }

  predicate LocksBefore(g: seq<Step>, h: seq<Step>, a: Address, until: real) {
    Unpassed(g, h, a) && |g| > |h| && Clocked(g) && Onset(g, a, |g| - 1) && g[|g| - 1].ts < until
  }

  /** With enough supply, wrong guesses alone set the lock before `until`. */
  lemma {:induction false} LockCanBeSet(h: seq<Step>, a: Address, t: real, until: real, need: nat) returns (g: seq<Step>)
    requires Latest(h, t) && t < until <= t + LOCK && Needs(End(h), a, t, need) && Supply(End(h), a, until) >= need
    ensures LocksBefore(g, h, a, until) && (Roomy(End(h), a, t, need) ==> g[|g| - 1].ts == t)
    decreases need, if DoneWrong(End(h), a) == {} then 1 else 0
  {
    var w := End(h);
    if DoneWrong(w, a) == {} {
      var row := Get(w.rows.rates, a.signer);
      var r := UpperBound(w.flight.Keys);
      var ts := TimeToGuess(row, t, until);
      var f := TwoMore(h, a, r, t, ts);
      assert DoneWrong(End(f), a) == {r};
      g := LockCanBeSet(f, a, ts, until, need);
      UnpassedTrans(g, f, h, a);
    } else {
      var r :| r in DoneWrong(w, a);
      g := OneRecordMore(h, a, r, t, need);
      if need > 1 {
        var f := g;
        g := LockCanBeSet(f, a, t, until, need - 1);
        UnpassedTrans(g, f, h, a);
      }
    }
  }

  /** The signer's window stays the one it is until `until`. */
  predicate Lasting(w: World, a: Address, until: real) {
    var row := Get(w.rows.rates, a.signer);
    row.Some? && until <= row.value.start + WINDOW
  }

  function Stock(w: World, a: Address, until: real): nat {
    Fails(Get(w.rows.locks, a)) + Supply(w, a, until)
  }

  lemma WrongMoved(w: World, s: Step, a: Address)
    ensures |DoneWrong(Next(w, s), a)| + One(s.r in DoneWrong(w, a)) == |DoneWrong(w, a)| + One(s.r in DoneWrong(Next(w, s), a))
  {
    Moved(DoneWrong(w, a), DoneWrong(Next(w, s), a), s.r);
  }

  /** No step but an onset adds to the failures recorded, in flight or still to be admitted. */
  lemma StockStep(w: World, s: Step, a: Address, until: real)
    requires Lasting(w, a, until) && s.ts < until && !SetsLock(w, s, a)
    ensures Lasting(Next(w, s), a, until) && Stock(Next(w, s), a, until) <= Stock(w, a, until)
  {
    WrongMoved(w, s, a);
    LockStep(w, s, a);
  }

  lemma {:induction false} StockFalls(g: seq<Step>, a: Address, m: nat, n: nat, until: real)
    requires m <= n <= |g| && Lasting(At(g, m), a, until) && NoOnset(g, a, m, n)
    requires forall k :: m <= k < n ==> g[k].ts < until
    ensures Lasting(At(g, n), a, until) && Stock(At(g, n), a, until) <= Stock(At(g, m), a, until)
    decreases n
  {
    if m < n {
      StockFalls(g, a, m, n - 1, until);
      assert !Onset(g, a, n - 1);
      StockStep(At(g, n - 1), g[n - 1], a, until);
    }
  }

  lemma OnsetNeedsStock(w: World, s: Step, a: Address, until: real)
    requires SetsLock(w, s, a)
    ensures Stock(w, a, until) >= FAILURES
  {
    assert s.r in DoneWrong(w, a);
  }

  /** A success recorded under a lock that has not run out, as the last step so far. */
  predicate ClearedUnder(h: seq<Step>, a: Address, i: nat) {
    && Clocked(h) && i + 1 < |h| && Onset(h, a, i) && Success(h, a, |h| - 1) && h[|h| - 1].ts < h[i].ts + LOCK
  }

  /** Some continuation locks the address out again before `until`. */
  ghost predicate CanLockAgain(h: seq<Step>, a: Address, until: real) {
    exists g: seq<Step>, j :: Continues(g, h) && Clocked(g) && |h| <= j < |g| && Onset(g, a, j) && g[j].ts < until
  }

  lemma ClearedNeedsFive(h: seq<Step>, a: Address, t: real)
    requires h != [] && Success(h, a, |h| - 1)
    ensures Needs(End(h), a, t, FAILURES)
  {
    LockStep(At(h, |h| - 1), h[|h| - 1], a);
  }

  lemma LockedAgainHadSupply(h: seq<Step>, a: Address, until: real, g: seq<Step>, j: nat)
    requires h != [] && Success(h, a, |h| - 1) && Lasting(End(h), a, until)
    requires Continues(g, h) && Clocked(g) && |h| <= j < |g| && Onset(g, a, j) && g[j].ts < until
    ensures Supply(End(h), a, until) >= FAILURES
  {
    ClearedNeedsFive(h, a, 0.0);
    var m := FirstOnset(g, a, |h|, j + 1);
    assert g == h + g[|h|..];
    AtPrefix(h, g[|h|..], |h|);
    assert Onset(g, a, j);
    assert forall k :: |h| <= k < m ==> g[k].ts <= g[j].ts;
    StockFalls(g, a, |h|, m - 1, until);
    OnsetNeedsStock(At(g, m - 1), g[m - 1], a, until);
  }

  /** After a success recorded under a lock, the address can be locked out again before that
      lock would have run out exactly when the wrong guesses in flight and the guesses the
      signer's window still admits in that time make five. */
  lemma SecondLockIffFiveMoreGuesses(h: seq<Step>, a: Address, i: nat)
    requires ClearedUnder(h, a, i)
    ensures CanLockAgain(h, a, h[i].ts + LOCK) <==> Supply(End(h), a, h[i].ts + LOCK) >= FAILURES
  {
    var t, until := h[|h| - 1].ts, h[i].ts + LOCK;
    assert h[i].ts <= t;
    if Supply(End(h), a, until) >= FAILURES {
      ClearedNeedsFive(h, a, t);
      var g := LockCanBeSet(h, a, t, until, FAILURES);
      assert Continues(g, h) && |h| <= |g| - 1;
    } else if CanLockAgain(h, a, until) {
      var g: seq<Step>, j :| Continues(g, h) && Clocked(g) && |h| <= j < |g| && Onset(g, a, j) && g[j].ts < until;
      LockedAgainHadSupply(h, a, until, g, j);
    }
  }

  /** A lock is set on `a` after step `i` and before `until`. */
  predicate LockedAgain(g: seq<Step>, a: Address, i: nat, until: real) {
    exists j :: i < j < |g| && Onset(g, a, j) && g[j].ts < until
  }

  predicate Cleared(row: Option<Lockout.Row>) {
    row.None? || row.value.until == 0.0
  }

  lemma {:induction false} ClearedStays(h: seq<Step>, a: Address, k: nat, n: nat)
    requires Clocked(h) && k < n <= |h| && Success(h, a, k) && NoOnset(h, a, k, n)
    ensures Cleared(RowAt(h, a, n)) && Fails(RowAt(h, a, n)) < FAILURES
    decreases n
  {
    LockStep(At(h, n - 1), h[n - 1], a);
    FailsStayBelow(h, a, n);
    if k + 1 < n {
      ClearedStays(h, a, k, n - 1);
      assert !Onset(h, a, n - 1);
    }
  }

  lemma ClearedCanLock(h: seq<Step>, a: Address, i: nat, k: nat) returns (g: seq<Step>)
    requires Clocked(h) && i < k < |h| && Onset(h, a, i) && Success(h, a, k) && h[|h| - 1].ts < h[i].ts + LOCK
    requires Supply(End(h), a, h[i].ts + LOCK) >= FAILURES
    ensures Clocked(g) && Unpassed(g, h, a) && LockedAgain(g, a, i, h[i].ts + LOCK)
  {
    var t := h[|h| - 1].ts;
    var m := FirstOnset(h, a, k, |h|);
    assert h[i].ts <= t && forall j :: 0 <= j < |h| ==> h[j].ts <= t;
    if m > k && Onset(h, a, m - 1) {
      g := h;
    } else {
      ClearedStays(h, a, k, |h|);
      g := LockCanBeSet(h, a, t, h[i].ts + LOCK, FAILURES - Fails(RowAt(h, a, |h|)));
      assert Onset(g, a, |g| - 1);
    }
  }

  /** While five more wrong guesses are in supply, a second lock can come before the first has
      run out, without any further success, if and only if a success has been recorded under
      the first by a request that was in flight when it was set. */
  lemma LocksCrowdIffInFlightSucceeded(h: seq<Step>, a: Address, i: nat)
    requires Clocked(h) && i < |h| && Onset(h, a, i) && h[|h| - 1].ts < h[i].ts + LOCK
    requires Supply(End(h), a, h[i].ts + LOCK) >= FAILURES
    ensures (exists g :: Clocked(g) && Unpassed(g, h, a) && LockedAgain(g, a, i, h[i].ts + LOCK))
       <==> exists k :: i < k < |h| && Success(h, a, k) && h[k].r in InFlight(At(h, i + 1), a)
  {
    if k :| i < k < |h| && Success(h, a, k) && h[k].r in InFlight(At(h, i + 1), a) {
      var g := ClearedCanLock(h, a, i, k);
    }
    if g :| Clocked(g) && Unpassed(g, h, a) && LockedAgain(g, a, i, h[i].ts + LOCK) {
      var k := SuccessCameBefore(g, h, a, i);
    }
  }

  lemma SuccessCameBefore(g: seq<Step>, h: seq<Step>, a: Address, i: nat) returns (k: nat)
    requires Clocked(g) && Unpassed(g, h, a) && i < |h| && Onset(h, a, i) && LockedAgain(g, a, i, h[i].ts + LOCK)
    ensures i < k < |h| && Success(h, a, k) && h[k].r in InFlight(At(h, i + 1), a)
  {
    var j :| i < j < |g| && Onset(g, a, j) && g[j].ts < h[i].ts + LOCK;
    assert g == h + g[|h|..];
    AtPrefix(h, g[|h|..], i);
    AtPrefix(h, g[|h|..], i + 1);
    assert Onset(g, a, i);
    k := OnsetsApartUnlessInFlightSucceeds(g, a, i, j);
    assert Success(g, a, k);
    AtPrefix(h, g[|h|..], if k < |h| then k else 0);
  }
}
