/** The brute-force gate in front of the challenge comparison (`verify_challenge` in
    sign/esign_access.py): a lock per signer and client address, a window per signer. A request
    makes three transactions, between which others may run: it reads the lock, it counts
    itself in the window, and, after the slow comparison, it records the outcome. */
module ChallengeGate {
  import opened Basics
  import Csv
  import RateLimit
  import Lockout

  const GUESSES := 40
  const WINDOW := 3600.0
  const FAILURES := 5
  const LOCK := 900.0

  /** Where requests come from and whom they are about. */
  datatype Address = Address(signer: nat, ip: string)

  /** The rows the gate reads and writes: a lock per address, a window per signer. */
  datatype Rows = Rows(locks: map<Address, Lockout.Row>, rates: map<nat, RateLimit.Row>)
  datatype Answer = Passed | Failed | TooManyFailures | TooManyGuesses

  // The three transactions

  predicate Shut(v: Rows, a: Address, ts: real) {
    Lockout.Locked(Get(v.locks, a), ts)
  }

  function NextRate(v: Rows, signer: nat, ts: real): RateLimit.Row {
    RateLimit.Hit(Get(v.rates, signer), ts, WINDOW)
  }

  predicate Admits(v: Rows, signer: nat, ts: real) {
    NextRate(v, signer, ts).count <= GUESSES
  }

  function CountHit(v: Rows, signer: nat, ts: real): Rows {
    v.(rates := v.rates[signer := NextRate(v, signer, ts)])
  }

  function NextLock(v: Rows, a: Address, ts: real, ok: bool): Option<Lockout.Row> {
    Lockout.Record(Get(v.locks, a), ts, ok, FAILURES, LOCK)
  }

  function Told(v: Rows, a: Address, ts: real, ok: bool): Rows {
    v.(locks := Put(v.locks, a, NextLock(v, a, ts, ok)))
  }

  /** A request that nothing comes between, all at one time. */
  function Verify(v: Rows, a: Address, ts: real, matches: bool): (Rows, Answer) {
    if Shut(v, a, ts) then (v, TooManyFailures)
    else
      var hit := CountHit(v, a.signer, ts);
      if !Admits(v, a.signer, ts) then (hit, TooManyGuesses)
      else
        var told := Told(hit, a, ts, matches);
        (told, if matches then Passed else if Shut(told, a, ts) then TooManyFailures else Failed)
  }

  // The keys of the two tables

  function RateKey(signer: nat): string {
    "chal:" + Csv.Decimal(signer)
  }

  function LockKey(signer: nat, ip: string): string {
    RateKey(signer) + [':'] + ip
  }

  predicate NoColon(s: string) {
    forall i :: 0 <= i < |s| ==> s[i] != ':'
  }

  function UpToColon(s: string): string {
    if s == [] || s[0] == ':' then [] else [s[0]] + UpToColon(s[1..])
  }

  lemma {:induction false} UpToColonFinds(a: string, x: string)
    requires NoColon(a)
    ensures UpToColon(a + [':'] + x) == a
  {
    if a != [] {
      UpToColonFinds(a[1..], x);
      assert (a + [':'] + x)[1..] == a[1..] + [':'] + x;
    }
  }

  lemma SplitAtColon(a: string, x: string, b: string, y: string)
    requires NoColon(a) && NoColon(b) && a + [':'] + x == b + [':'] + y
    ensures a == b && x == y
  {
    UpToColonFinds(a, x);
    UpToColonFinds(b, y);
    assert x == (a + [':'] + x)[|a| + 1..] && y == (b + [':'] + y)[|b| + 1..];
  }

  lemma RateKeysApart(a: nat, b: nat)
    requires RateKey(a) == RateKey(b)
    ensures a == b
  {
    assert Csv.Decimal(a) == RateKey(a)[5..] && Csv.Decimal(b) == RateKey(b)[5..];
    Csv.ParseDecimalInverts(a);
    Csv.ParseDecimalInverts(b);
  }

  lemma DigitsNoColon(n: nat)
    ensures NoColon(Csv.Decimal(n))
  {
    var p := Csv.Decimal(n);
    assert forall i :: 0 <= i < |p| ==> p[i] in p;
  }

  lemma CutPrefix(prefix: string, u: string, v: string)
    requires prefix + u == prefix + v
    ensures u == v
  {
    assert u == (prefix + u)[|prefix|..] && v == (prefix + v)[|prefix|..];
  }

  lemma KeysSplit(prefix: string, p: string, x: string, q: string, y: string)
    requires NoColon(p) && NoColon(q) && prefix + p + [':'] + x == prefix + q + [':'] + y
    ensures p == q && x == y
  {
    assert prefix + p + [':'] + x == prefix + (p + [':'] + x);
    assert prefix + q + [':'] + y == prefix + (q + [':'] + y);
    CutPrefix(prefix, p + [':'] + x, q + [':'] + y);
    SplitAtColon(p, x, q, y);
  }

  lemma LockKeysApart(a: nat, x: string, b: nat, y: string)
    requires LockKey(a, x) == LockKey(b, y)
    ensures a == b && x == y
  {
    DigitsNoColon(a);
    DigitsNoColon(b);
    KeysSplit("chal:", Csv.Decimal(a), x, Csv.Decimal(b), y);
    Csv.ParseDecimalInverts(a);
    Csv.ParseDecimalInverts(b);
  }

  /** The tables hold these rows, each under its key. */
  ghost predicate Holds(limits: map<string, Lockout.Row>, rates: map<string, RateLimit.Row>, v: Rows) {
    && (forall a: Address :: Get(limits, LockKey(a.signer, a.ip)) == Get(v.locks, a))
    && (forall signer: nat :: Get(rates, RateKey(signer)) == Get(v.rates, signer))
  }

  /** Writing under the key of a signer changes the row of that signer only. */
  lemma RateWritten(rates: map<string, RateLimit.Row>, v: Rows, signer: nat, row: RateLimit.Row, other: nat)
    requires Get(rates, RateKey(other)) == Get(v.rates, other)
    ensures Get(Put(rates, RateKey(signer), Some(row)), RateKey(other)) == Get(v.rates[signer := row], other)
  {
    if RateKey(signer) == RateKey(other) {
      RateKeysApart(signer, other);
    }
  }

  lemma LockWritten(limits: map<string, Lockout.Row>, v: Rows, a: Address, row: Option<Lockout.Row>, other: Address)
    requires Get(limits, LockKey(other.signer, other.ip)) == Get(v.locks, other)
    ensures Get(Put(limits, LockKey(a.signer, a.ip), row), LockKey(other.signer, other.ip)) == Get(Put(v.locks, a, row), other)
  {
    if LockKey(a.signer, a.ip) == LockKey(other.signer, other.ip) {
      LockKeysApart(a.signer, a.ip, other.signer, other.ip);
    }
  }

  /** The gate over its two tables: each method is one transaction, the last a whole request
      with nothing else running. */
  class Gate {
    const limits: Lockout.Table
    const rates: RateLimit.Limiter
    ghost var rows: Rows

    constructor ()
      ensures fresh(limits) && fresh(rates) && Valid() && rows == Rows(map[], map[])
    {
      limits := new Lockout.Table();
      rates := new RateLimit.Limiter();
      rows := Rows(map[], map[]);
    }

    ghost predicate Valid()
      reads this, limits, rates
    {
      Holds(limits.rows, rates.rows, rows)
    }

    method CheckLock(a: Address, now: real) returns (shut: bool)
      requires Valid()
      ensures shut == Shut(rows, a, now)
    {
      shut := limits.IsLocked(LockKey(a.signer, a.ip), now);
    }

    method CountGuess(a: Address, ts: real) returns (allowed: bool)
      requires Valid()
      modifies this, rates
      ensures Valid() && rows == CountHit(old(rows), a.signer, ts)
      ensures allowed == Admits(old(rows), a.signer, ts)
    {
      ghost var was, row := rates.rows, NextRate(rows, a.signer, ts);
      allowed := rates.Allow(RateKey(a.signer), GUESSES, WINDOW, ts);
      forall other: nat
        ensures Get(rates.rows, RateKey(other)) == Get(rows.rates[a.signer := row], other)
      {
        RateWritten(was, rows, a.signer, row, other);
      }
      rows := CountHit(rows, a.signer, ts);
    }

    method RecordGuess(a: Address, ok: bool, ts: real)
      requires Valid() && ts >= 0.0
      modifies this, limits
      ensures Valid() && rows == Told(old(rows), a, ts, ok)
    {
      ghost var was, row := limits.rows, NextLock(rows, a, ts, ok);
      limits.RecordAttempt(LockKey(a.signer, a.ip), ok, FAILURES, LOCK, ts);
      forall other: Address
        ensures Get(limits.rows, LockKey(other.signer, other.ip)) == Get(Put(rows.locks, a, row), other)
      {
        LockWritten(was, rows, a, row, other);
      }
      rows := Told(rows, a, ts, ok);
    }

    method VerifyChallenge(a: Address, matches: bool, ts: real) returns (answer: Answer)
      requires Valid() && ts >= 0.0
      modifies this, limits, rates
      ensures Valid() && (rows, answer) == Verify(old(rows), a, ts, matches)
    {
      var shut := CheckLock(a, ts);
      if shut {
        return TooManyFailures;
      }
      var allowed := CountGuess(a, ts);
      if !allowed {
        return TooManyGuesses;
      }
      RecordGuess(a, matches, ts);
      if matches {
        return Passed;
      }
      shut := CheckLock(a, ts);
      return if shut then TooManyFailures else Failed;
    }
  }
}
