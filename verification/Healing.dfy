/** Whether an envelope that everyone signed can still be completed: a signer repeats the
    submission, and the call of `finalize` it starts takes over a claim left behind. */
module Healing {
  import opened Basics
  import opened Envelope
  import opened Runs
  import opened Lease
  import opened Overrun

  /** Signed rows hold a token, and, while signing is not over, none of them has withdrawn. */
  predicate Repeatable(a: Agreement) {
    && (forall i :: 0 <= i < |a.signers| && a.signers[i].status == Signed ==> a.signers[i].token.Some?)
    && (!Terminal(a.status) ==> forall i :: 0 <= i < |a.signers| && a.signers[i].status == Signed ==> !a.signers[i].withdrawn)
  }

  lemma LinkActRepeatable(a: Agreement, i: nat, token: nat, now: real)
    requires Repeatable(a)
    ensures Repeatable(OrElse(SelfSign(a, i, token, now), a))
    ensures Repeatable(OrElse(View(a, i, now), a))
  {
  }

  lemma NoteRepeatable(a: Agreement, i: nat, unmet: bool, now: real)
    requires Repeatable(a)
    ensures Repeatable(OrElse(RecordConsent(a, i, now), a))
    ensures Repeatable(SetLock(a, i, unmet))
  {
  }

  lemma EndActRepeatable(a: Agreement, i: nat)
    requires Repeatable(a)
    ensures Repeatable(OrElse(Withdraw(a, i), a))
    ensures Repeatable(OrElse(Decline(a, i), a))
  {
  }

  lemma ActRepeatable(a: Agreement, act: Act, now: real)
    requires Repeatable(a)
    ensures Repeatable(Acted(a, act, now))
  {
    match act
    case ActSelfSign(i, token) => LinkActRepeatable(a, i, token, now);
    case ActView(i) => LinkActRepeatable(a, i, 0, now);
    case ActConsent(i) => NoteRepeatable(a, i, false, now);
    case ActLock(i, unmet) => NoteRepeatable(a, i, unmet, now);
    case ActWithdraw(i) => EndActRepeatable(a, i);
    case ActDecline(i) => EndActRepeatable(a, i);
    case ActSigners(signers) =>
      assert (forall s :: s in signers ==> FreshSigner(s)) ==> forall i :: 0 <= i < |signers| ==> FreshSigner(signers[i]);
    case _ =>
  }

  lemma SubmitRepeatable(a: Agreement, i: nat, form: Form, consent: bool, now: real)
    requires Repeatable(a) && Submit(a, i, form, consent, now).Recorded?
    ensures Repeatable(Submit(a, i, form, consent, now).next)
  {
    SubmitAllowed(a, i, form, consent, now);
  }

  lemma NextRepeatable(w: World, s: Step)
    requires Orderly(w) && Repeatable(w.a)
    ensures Repeatable(Next(w, s).a)
  {
    match s
    case Do(act) => ActRepeatable(w.a, act, w.clock);
    case SubmitForm(p, i, form, consent) =>
      if Submit(w.a, i, form, consent, w.clock).Recorded? { SubmitRepeatable(w.a, i, form, consent, w.clock); }
    case _ =>
  }

  lemma {:induction false} RunRepeatable(w: World, steps: seq<Step>)
    requires Init(w)
    ensures Repeatable(Run(w, steps).a)
  {
    if steps != [] {
      RunRepeatable(w, steps[..|steps| - 1]);
      RunOrderly(w, steps[..|steps| - 1]);
      NextRepeatable(Run(w, steps[..|steps| - 1]), steps[|steps| - 1]);
    }
  }

  /** Everyone has signed, the envelope is not sealed, and no call is running. */
  predicate LeftOpen(w: World) {
    AllDone(w.a) && w.procs == map[]
  }

  predicate AllDone(a: Agreement) {
    a.signers != [] && AllSigned(a.signers) && InFlight(a.status)
  }

  /** Signer `i` submits again, and the call this starts runs at once to the end. */
  function Resubmit(p: nat, i: nat, now: real): seq<Step> {
    [SubmitForm(p, i, [], true), Count(p)] + [ReadRow(p), ClaimSeal(p, now), FinishSeal(p)]
  }

  /** A repeat by signer `i`, `dt` from now, completes the envelope. */
  predicate Completes(w: World, p: nat, i: nat, dt: real) {
    Run(Next(w, Tick(dt)), Resubmit(p, i, w.clock + dt)).a.status == Completed
  }

  /** The submission is let through. */
  predicate Admitted(w: World, i: nat) {
    i < |w.a.signers| && !w.a.signers[i].lockUnmet && !LinkExpired(w.a, w.clock)
  }

  lemma RepeatIsCounted(w: World, p: nat, i: nat)
    requires AllDone(w.a) && p !in w.procs && Repeatable(w.a)
    ensures Next(w, SubmitForm(p, i, [], true)) == if Admitted(w, i) then At(w, p, Counting(true)) else w
  {
    if i < |w.a.signers| {
      assert w.a.signers[i].status == Signed;
    }
  }

  /** What a started call comes to. */
  lemma CallCompletes(w: World, p: nat)
    requires AllDone(w.a) && p !in w.procs
    ensures var v := Next(At(w, p, Counting(true)), Count(p));
            var done := Next(Next(Next(v, ReadRow(p)), ClaimSeal(p, w.clock)), FinishSeal(p));
            done.a.status == Completed <==> !AnyLockUnmet(w.a.signers) && Claimable(w.a, w.clock)
  {
    var v := Next(At(w, p, Counting(true)), Count(p));
    assert v == At(w, p, Called);
    if !AnyLockUnmet(w.a.signers) {
      assert Next(v, ReadRow(p)) == At(w, p, HasRead(w.a));
    } else {
      assert p !in Next(v, ReadRow(p)).procs;
    }
  }

  lemma IdleStays(w: World, p: nat)
    requires AllDone(w.a) && p !in w.procs
    ensures Next(Next(Next(Next(w, Count(p)), ReadRow(p)), ClaimSeal(p, w.clock)), FinishSeal(p)) == w
  {
  }

  lemma FiveSteps(w: World, a: Step, b: Step, c: Step, d: Step, e: Step)
    ensures Run(w, [a, b] + [c, d, e]) == Next(Next(Next(Next(Next(w, a), b), c), d), e)
  {
    RunThen(w, [], a);
    RunThen(w, [a], b);
    assert [] + [a] == [a] && [a] + [b] == [a, b];
    RunThenThree(w, [a, b], c, d, e);
  }

  lemma ResubmitCompletesIff(w: World, p: nat, i: nat)
    requires AllDone(w.a) && p !in w.procs && Repeatable(w.a)
    ensures Run(w, Resubmit(p, i, w.clock)).a.status == Completed
       <==> i < |w.a.signers| && !AnyLockUnmet(w.a.signers) && !LinkExpired(w.a, w.clock) && Claimable(w.a, w.clock)
  {
    FiveSteps(w, SubmitForm(p, i, [], true), Count(p), ReadRow(p), ClaimSeal(p, w.clock), FinishSeal(p));
    RepeatIsCounted(w, p, i);
    assert i < |w.a.signers| && w.a.signers[i].lockUnmet ==> w.a.signers[i] in w.a.signers;
    if Admitted(w, i) {
      CallCompletes(w, p);
    } else {
      IdleStays(w, p);
    }
  }

  /** A repeat completes the envelope exactly if the signer is there, no lock is unmet, the link
      has not expired and the row can be claimed at that time. */
  lemma RepeatCompletesIff(w: World, p: nat, i: nat, dt: real)
    requires LeftOpen(w) && Repeatable(w.a) && dt >= 0.0
    ensures Completes(w, p, i, dt) <==>
              i < |w.a.signers| && !AnyLockUnmet(w.a.signers) && !LinkExpired(w.a, w.clock + dt) && Claimable(w.a, w.clock + dt)
  {
    ResubmitCompletesIff(Next(w, Tick(dt)), p, i);
  }

  function LinkStart(a: Agreement): real {
    if a.sentAt.Some? && a.sentAt.value != 0.0 then a.sentAt.value else a.createdAt
  }

  /** The link is alive now and, behind an old claim, is so when that claim goes stale. */
  predicate LinkOutlivesClaim(a: Agreement, now: real) {
    LinkStart(a) > 0.0 ==>
      && now <= LinkStart(a) + LINK_TTL
      && (a.status == Sealing && a.sealingAt.Some? ==> a.sealingAt.value + SEAL_STALE < LinkStart(a) + LINK_TTL)
  }

  /** A time at which the row can be claimed and the link is alive. */
  lemma TimeToRepeat(a: Agreement, now: real) returns (t: real)
    requires InFlight(a.status) && LinkOutlivesClaim(a, now)
    ensures t >= now && Claimable(a, t) && !LinkExpired(a, t)
  {
    if a.status == Sealing && a.sealingAt.Some? {
      t := if LinkStart(a) > 0.0 then LinkStart(a) + LINK_TTL else a.sealingAt.value + SEAL_STALE + 1.0;
      if t < now {
        t := now;
      }
    } else {
      t := now;
    }
  }

  /** In every reachable state in which everyone has signed, the envelope is not sealed and no
      call is running, some repeat of a signer completes it if and only if no signer's lock is
      unmet and the link outlives the claim left behind. */
  lemma HealsIffLinkOutlivesClaim(w0: World, steps: seq<Step>)
    requires Init(w0) && LeftOpen(Run(w0, steps))
    ensures var w := Run(w0, steps);
            (exists p, i, dt :: dt >= 0.0 && Completes(w, p, i, dt))
            <==> !AnyLockUnmet(w.a.signers) && LinkOutlivesClaim(w.a, w.clock)
  {
    var w := Run(w0, steps);
    RunRepeatable(w0, steps);
    if !AnyLockUnmet(w.a.signers) && LinkOutlivesClaim(w.a, w.clock) {
      var t := TimeToRepeat(w.a, w.clock);
      RepeatCompletesIff(w, 0, 0, t - w.clock);
      assert Completes(w, 0, 0, t - w.clock);
    }
    if p, i, dt :| dt >= 0.0 && Completes(w, p, i, dt) {
      RepeatCompletesIff(w, p, i, dt);
    }
  }

  // The stranded envelope

  function SentLate(): seq<Step> {
    [Do(ActSigners([Alice()])), Tick(1.0), Do(ActSend([7]))]
  }

  function SignedAtTheEnd(): seq<Step> {
    SentLate() + [Tick(LINK_TTL), SubmitForm(0, 0, [], true), Count(0)]
  }

  function Stranding(): seq<Step> {
    SignedAtTheEnd() + [ReadRow(0), ClaimSeal(0, 1.0 + LINK_TTL), Crash(0)]
  }

  predicate AliceOut(w: World, now: real) {
    && w.clock == now && w.procs == map[] && w.a.status == OutForSignature
    && w.a.signers == [SendTo(Alice(), 7)] && w.a.sentAt == Some(1.0) && !w.a.sequential && w.a.doc.fields == []
  }

  lemma SentAtOne() returns (w: World)
    ensures w == Run(Blank(), SentLate()) && AliceOut(w, 1.0)
  {
    var s := SentLate();
    FreezeBlank();
    var w1 := Next(Blank(), s[0]);
    assert w1.a.signers == [Alice()];
    w := Next(Next(w1, s[1]), s[2]);
    assert w.a.signers == [SendTo(Alice(), 7)];
    RunThenThree(Blank(), [], s[0], s[1], s[2]);
    assert s == [] + [s[0], s[1], s[2]];
  }

  lemma SignsInTime(w: World)
    requires AliceOut(w, 1.0 + LINK_TTL)
    ensures var u := Next(Next(w, SubmitForm(0, 0, [], true)), Count(0));
            && u.clock == w.clock && u.procs == map[0 := Called] && u.a.status == OutForSignature
            && |u.a.signers| == 1 && AllSigned(u.a.signers) && !AnyLockUnmet(u.a.signers)
            && u.a.sentAt == Some(1.0)
  {
    assert SubmitGate(w.a, 0, [], true, w.clock).None?;
    var v := Next(w, SubmitForm(0, 0, [], true));
    assert v.procs == map[0 := Counting(false)];
    assert Next(v, Count(0)) == At(v, 0, Called);
  }

  lemma ClaimedAndDead(w: World)
    requires w.clock == 1.0 + LINK_TTL && w.procs == map[0 := Called] && w.a.status == OutForSignature
    requires !AnyLockUnmet(w.a.signers)
    ensures var u := Next(Next(Next(w, ReadRow(0)), ClaimSeal(0, 1.0 + LINK_TTL)), Crash(0));
            u.procs == map[] && u.clock == w.clock && u.a == w.a.(status := Sealing, sealingAt := Some(1.0 + LINK_TTL))
  {
    assert Next(w, ReadRow(0)) == At(w, 0, HasRead(w.a));
  }

  lemma StrandingRuns() returns (w: World)
    ensures w == Run(Blank(), Stranding()) && LeftOpen(w) && !AnyLockUnmet(w.a.signers)
    ensures w.clock == 1.0 + LINK_TTL && w.a.status == Sealing && w.a.sealingAt == Some(w.clock) && w.a.sentAt == Some(1.0)
  {
    var w3 := SentAtOne();
    var w4 := Next(w3, Tick(LINK_TTL));
    SignsInTime(w4);
    var w6 := Next(Next(w4, SubmitForm(0, 0, [], true)), Count(0));
    RunThenThree(Blank(), SentLate(), Tick(LINK_TTL), SubmitForm(0, 0, [], true), Count(0));
    ClaimedAndDead(w6);
    RunThenThree(Blank(), SignedAtTheEnd(), ReadRow(0), ClaimSeal(0, 1.0 + LINK_TTL), Crash(0));
    w := Next(Next(Next(w6, ReadRow(0)), ClaimSeal(0, 1.0 + LINK_TTL)), Crash(0));
  }

  /** Signed as the link runs out and left behind by a seal that died: no repeat completes the
      envelope, and the sweep, at any time, passes over it. */
  lemma StrandedEnvelope()
    ensures Init(Blank())
    ensures var w := Run(Blank(), Stranding());
            && LeftOpen(w) && w.a.status == Sealing && !AnyLockUnmet(w.a.signers)
            && !(exists p, i, dt :: dt >= 0.0 && Completes(w, p, i, dt))
            && forall now :: Sweep(w.a, now) == w.a
  {
    var w := StrandingRuns();
    HealsIffLinkOutlivesClaim(Blank(), Stranding());
  }
}
