/** The window of the seal lease is exact: a seal that takes any longer than it can be
    overtaken, and then the envelope is completed, and its copy mailed out, twice. */
module Overrun {
  import opened Basics
  import opened Envelope
  import opened Runs
  import Lease
  import Pages

  lemma RunThen(w: World, steps: seq<Step>, s: Step)
    ensures Run(w, steps + [s]) == Next(Run(w, steps), s)
  {
    assert (steps + [s])[..|steps|] == steps;
  }

  /** A one-page draft with one signer, sent and signed, with two calls on their way in. */
  function Blank(): World {
    World(Agreement(Drafting, None, false, 0.0, None, None, Pages.Draft([Pages.Page(0, 0, false)], [], ""),
                    None, None, [], []),
          0.0, map[], {})
  }

  function Alice(): Signer {
    Signer("alice@example.com", 1, false, None, Pending, false, None, false, false)
  }

  function SendAndSign(): seq<Step> {
    [Do(ActSigners([Alice()])), Do(ActSend([7])), SubmitForm(0, 0, [], true)]
  }

  function FirstSeal(): seq<Step> {
    SendAndSign() + [Count(0), ReadRow(0), ClaimSeal(0, 0.0)]
  }

  function Opening(): seq<Step> {
    FirstSeal() + [SubmitForm(1, 0, [], true), Count(1), ReadRow(1)]
  }

  lemma FreezeBlank()
    ensures Pages.Freeze(Blank().a.doc).Some?
  {
    assert Pages.Csv.Split("") == [""];
    assert Pages.Csv.Decode("") == {};
  }

  lemma RunThenThree(w: World, steps: seq<Step>, a: Step, b: Step, c: Step)
    ensures Run(w, steps + [a, b, c]) == Next(Next(Next(Run(w, steps), a), b), c)
  {
    var s1 := steps + [a];
    var s2 := s1 + [b];
    RunThen(w, steps, a);
    RunThen(w, s1, b);
    RunThen(w, s2, c);
    assert steps + [a, b, c] == s2 + [c];
  }

  predicate AliceSigned(a: Agreement) {
    && |a.signers| == 1 && a.sentAt == Some(0.0) && a.createdAt == 0.0
    && a.signers[0].status == Signed && a.signers[0].token == Some(7)
    && !a.signers[0].lockUnmet && !a.signers[0].withdrawn
  }

  lemma SentAndSigned()
    ensures var w := Next(Next(Next(Blank(), SendAndSign()[0]), SendAndSign()[1]), SendAndSign()[2]);
            && w.clock == 0.0 && w.procs == map[0 := Counting(false)]
            && w.a.status == OutForSignature && AliceSigned(w.a)
  {
    FreezeBlank();
    var w1 := Next(Blank(), SendAndSign()[0]);
    assert w1.a.signers == [Alice()];
    var w2 := Next(w1, SendAndSign()[1]);
    assert w2.a.signers == [SendTo(Alice(), 7)] && w2.a.status == OutForSignature;
    assert SubmitGate(w2.a, 0, [], true, 0.0).None?;
  }

  lemma FirstSealStarts(w: World)
    requires w.clock == 0.0 && w.procs == map[0 := Counting(false)]
    requires w.a.status == OutForSignature && AliceSigned(w.a)
    ensures var after := Next(Next(Next(w, Count(0)), ReadRow(0)), ClaimSeal(0, 0.0));
            SealRunning(after) && 1 !in after.procs && AliceSigned(after.a)
  {
    var w4 := Next(w, Count(0));
    assert w4 == At(w, 0, Called);
    assert !AnyLockUnmet(w4.a.signers);
    assert Next(w4, ReadRow(0)) == At(w4, 0, HasRead(w4.a));
  }

  predicate SealRunning(w: World) {
    && w.clock == 0.0 && w.a.status == Sealing && w.a.sealingAt == Some(0.0)
    && 0 in w.procs && w.procs[0].Sealer? && w.procs[0].claimedAt == 0.0
  }

  /** The signer's repeat of the submission starts a second call while the seal runs. */
  lemma SecondCall(w: World)
    requires SealRunning(w) && 1 !in w.procs
    requires AliceSigned(w.a)
    ensures var after := Next(Next(Next(w, SubmitForm(1, 0, [], true)), Count(1)), ReadRow(1));
            SealRunning(after) && 1 in after.procs && after.procs[1].HasRead?
  {
    var w7 := Next(w, SubmitForm(1, 0, [], true));
    assert SubmitGate(w.a, 0, [], true, 0.0).None?;
    assert w7 == At(w, 1, Counting(true));
    var w8 := Next(w7, Count(1));
    assert w8 == At(w7, 1, Called);
    assert !AnyLockUnmet(w8.a.signers);
    assert Next(w8, ReadRow(1)) == At(w8, 1, HasRead(w8.a));
  }

  lemma AfterSigning() returns (w: World)
    ensures w == Run(Blank(), SendAndSign())
    ensures w.clock == 0.0 && w.procs == map[0 := Counting(false)]
    ensures w.a.status == OutForSignature && AliceSigned(w.a)
  {
    var s := SendAndSign();
    SentAndSigned();
    w := Next(Next(Next(Blank(), s[0]), s[1]), s[2]);
    RunThenThree(Blank(), [], s[0], s[1], s[2]);
    assert s == [] + [s[0], s[1], s[2]];
  }

  lemma AfterClaim() returns (w: World)
    ensures w == Run(Blank(), FirstSeal())
    ensures SealRunning(w) && 1 !in w.procs && AliceSigned(w.a)
  {
    var w3 := AfterSigning();
    FirstSealStarts(w3);
    w := Next(Next(Next(w3, Count(0)), ReadRow(0)), ClaimSeal(0, 0.0));
    RunThenThree(Blank(), SendAndSign(), Count(0), ReadRow(0), ClaimSeal(0, 0.0));
  }

  lemma SecondCallWaits() returns (w: World)
    ensures w == Run(Blank(), Opening())
    ensures SealRunning(w) && 1 in w.procs && w.procs[1].HasRead?
  {
    var w6 := AfterClaim();
    SecondCall(w6);
    w := Next(Next(Next(w6, SubmitForm(1, 0, [], true)), Count(1)), ReadRow(1));
    RunThenThree(Blank(), FirstSeal(), SubmitForm(1, 0, [], true), Count(1), ReadRow(1));
  }

  /** Once the window is over the waiting call takes the claim, and nothing stops the other. */
  lemma Overtaken(w: World, late: real)
    requires SealRunning(w) && 1 in w.procs && w.procs[1].HasRead? && late > SEAL_STALE
    ensures var both := Next(Next(w, Tick(late)), ClaimSeal(1, late));
            && Lease.RunsSeal(both, 0) && Lease.RunsSeal(both, 1)
            && Next(Next(both, FinishSeal(0)), FinishSeal(1)).a.events
               == both.a.events + [Of(EvSealed), Of(EvCompleted)] + [Of(EvSealed), Of(EvCompleted)]
  {
    var w10 := Next(w, Tick(late));
    assert Claimable(w10.a, late);
  }

  lemma TwoCompletions(events: seq<Event>)
    ensures Lease.Completions(events + [Of(EvSealed), Of(EvCompleted)] + [Of(EvSealed), Of(EvCompleted)]) >= 2
  {
    var done := [Of(EvSealed), Of(EvCompleted)];
    Lease.CompletionsAppend(events + done, done);
    Lease.CompletionsAppend(events, done);
    assert Lease.Completions([Of(EvSealed)]) == 0;
    assert Lease.Completions(done) == 1;
  }

  /** However little a seal overruns its window, there is a run in which another call takes
      the claim over, both seals run at once, and the completed write happens twice. */
  lemma OverrunCompletesTwice(overrun: real) returns (steps: seq<Step>)
    requires overrun > 0.0
    ensures Init(Blank())
    ensures exists k :: 0 <= k <= |steps| &&
              Lease.RunsSeal(Run(Blank(), steps[..k]), 0) && Lease.RunsSeal(Run(Blank(), steps[..k]), 1)
    ensures Lease.Completions(Run(Blank(), steps).a.events) >= 2
  {
    var late := SEAL_STALE + overrun;
    var w9 := SecondCallWaits();
    Overtaken(w9, late);
    var both := Next(Next(w9, Tick(late)), ClaimSeal(1, late));
    TwoCompletions(both.a.events);

    var claimed := Opening() + [Tick(late)] + [ClaimSeal(1, late)];
    RunThen(Blank(), Opening(), Tick(late));
    RunThen(Blank(), Opening() + [Tick(late)], ClaimSeal(1, late));
    RunThen(Blank(), claimed, FinishSeal(0));
    RunThen(Blank(), claimed + [FinishSeal(0)], FinishSeal(1));
    steps := claimed + [FinishSeal(0)] + [FinishSeal(1)];
    assert steps[..|claimed|] == claimed;
  }
}
