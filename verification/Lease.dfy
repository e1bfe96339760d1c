/** The seal lease over whole runs: when a seal may be claimed, what its release can do, and,
    for seals that end within their window, mutual exclusion and a single completion. */
module Lease {
  import opened Basics
  import opened Records
  import opened Envelope
  import opened Runs

  /** Everyone has signed, or the envelope can no longer be sealed. */
  predicate Settled(a: Agreement) {
    Terminal(a.status) || (a.signers != [] && AllSigned(a.signers))
  }

  predicate Unopened(a: Agreement) {
    forall i :: 0 <= i < |a.signers| ==> a.signers[i].token.None?
  }

  predicate InFlight(s: Status) {
    s == OutForSignature || s == Sealing
  }

  /** What every step keeps, whatever the timing. */
  ghost predicate Orderly(w: World) {
    && (w.a.status == Drafting ==> Unopened(w.a) && w.procs == map[])
    && (InFlight(w.a.status) || w.procs != map[] ==> w.a.signers != [])
    && forall p :: p in w.procs ==>
         match w.procs[p]
         case Called => Settled(w.a)
         case HasRead(read) => Settled(w.a) && (Terminal(w.a.status) || InFlight(read.status))
         case Sealer(read, _) => Settled(w.a) && InFlight(read.status)
         case _ => true
  }

  /** The statuses that end signing are never left for one that can be claimed. */
  lemma ActKeepsTerminal(a: Agreement, act: Act, now: real)
    requires Terminal(a.status)
    ensures Terminal(Acted(a, act, now).status)
  {
  }

  lemma ActKeepsSettled(a: Agreement, act: Act, now: real)
    requires a.status != Drafting && Settled(a)
    ensures Settled(Acted(a, act, now))
  {
    if act.ActWithdraw? {
      var next := Withdraw(a, act.i);
      assert next.Some? && next.value != a && a.status != Completed ==> Terminal(next.value.status);
    }
  }

  /** A draft has no tokens and no way back; leaving it for signature needs a signer. */
  lemma ActLeavesDraft(a: Agreement, act: Act, now: real)
    ensures var b := Acted(a, act, now);
            && (a.status != Drafting ==> b.status != Drafting && |b.signers| == |a.signers|)
            && (a.status == Drafting && Unopened(a) && b.status == Drafting ==> Unopened(b))
            && (InFlight(b.status) && (InFlight(a.status) ==> a.signers != []) ==> b.signers != [])
  {
    if act.ActSigners? && forall s :: s in act.signers ==> FreshSigner(s) {
      assert forall i :: 0 <= i < |act.signers| ==> FreshSigner(act.signers[i]);
    }
  }

  lemma SubmitKeeps(a: Agreement, i: nat, form: Form, consent: bool, now: real)
    requires a.status == Drafting ==> Unopened(a)
    ensures var r := Submit(a, i, form, consent, now);
            && (!r.Refused? ==> a.status != Drafting && a.signers != [])
            && (r.Recorded? ==>
                  && !AllSigned(a.signers) && |r.next.signers| == |a.signers|
                  && r.next.status == a.status && r.next.sealingAt == a.sealingAt)
  {
  }

  lemma DoKeepsOrderly(w: World, act: Act)
    requires Orderly(w)
    ensures Orderly(Next(w, Do(act)))
  {
    ActLeavesDraft(w.a, act, w.clock);
    if w.a.status != Drafting {
      if Terminal(w.a.status) {
        ActKeepsTerminal(w.a, act, w.clock);
      }
      if Settled(w.a) {
        ActKeepsSettled(w.a, act, w.clock);
      }
    }
  }

  lemma SubmitKeepsOrderly(w: World, p: nat, i: nat, form: Form, consent: bool)
    requires Orderly(w)
    ensures Orderly(Next(w, SubmitForm(p, i, form, consent)))
  {
    SubmitKeeps(w.a, i, form, consent, w.clock);
    var w' := Next(w, SubmitForm(p, i, form, consent));
    assert Settled(w.a) ==> Settled(w'.a);
  }

  lemma CallKeepsOrderly(w: World, s: Step)
    requires Orderly(w) && !s.Do? && !s.SubmitForm?
    ensures Orderly(Next(w, s))
  {
    var w' := Next(w, s);
    assert Settled(w.a) ==> Settled(w'.a);
  }

  lemma NextKeepsOrderly(w: World, s: Step)
    requires Orderly(w)
    ensures Orderly(Next(w, s))
  {
    match s {
      case Do(act) => DoKeepsOrderly(w, act);
      case SubmitForm(p, i, form, consent) => SubmitKeepsOrderly(w, p, i, form, consent);
      case _ => CallKeepsOrderly(w, s);
    }
  }

  lemma {:induction false} OrderlyFrom(w: World, steps: seq<Step>)
    requires Orderly(w)
    ensures Orderly(Run(w, steps))
  {
    if steps != [] {
      OrderlyFrom(w, steps[..|steps| - 1]);
      NextKeepsOrderly(Run(w, steps[..|steps| - 1]), steps[|steps| - 1]);
    }
  }

  lemma RunOrderly(w: World, steps: seq<Step>)
    requires Init(w)
    ensures Orderly(Run(w, steps))
  {
    OrderlyFrom(w, steps);
  }

  predicate RunsSeal(w: World, p: nat) {
    p in w.procs && w.procs[p].Sealer?
  }

  /** Every successful claim, in every run and whatever the timing, is of an envelope with at
      least one signer, all of whom have signed and none of whom has since withdrawn. */
  lemma EveryClaimIsOfAFullySignedEnvelope(w: World, steps: seq<Step>, p: nat, at: real)
    requires Init(w)
    requires var before := Run(w, steps); !RunsSeal(before, p) && RunsSeal(Next(before, ClaimSeal(p, at)), p)
    ensures var before := Run(w, steps);
            before.a.signers != [] && AllSigned(before.a.signers) && InFlight(before.a.status)
  {
    RunOrderly(w, steps);
  }

  /** A run never leaves the statuses that end signing. */
  lemma {:induction false} TerminalIsForever(w: World, steps: seq<Step>)
    requires Orderly(w) && Terminal(w.a.status)
    ensures Terminal(Run(w, steps).a.status)
  {
    if steps != [] {
      var before, s := Run(w, steps[..|steps| - 1]), steps[|steps| - 1];
      TerminalIsForever(w, steps[..|steps| - 1]);
      if s.Do? {
        ActKeepsTerminal(before.a, s.act, before.clock);
      }
    }
  }

  // ---- seals that end within their window -------------------------------------------

  /** No seal is still running more than `SEAL_STALE` after the time its claim recorded. */
  ghost predicate Timely(w: World) {
    forall p :: RunsSeal(w, p) ==> w.clock <= w.procs[p].claimedAt + SEAL_STALE
  }

  ghost predicate TimelyRun(w: World, steps: seq<Step>) {
    forall k :: 0 <= k <= |steps| ==> Timely(Run(w, steps[..k]))
  }

  function Completions(events: seq<Event>): nat {
    if events == [] then 0
    else (if events[|events| - 1].kind == EvCompleted then 1 else 0) + Completions(events[..|events| - 1])
  }

  lemma {:induction false} CompletionsAppend(a: seq<Event>, b: seq<Event>)
    ensures Completions(a + b) == Completions(a) + Completions(b)
  {
    if b == [] {
      assert a + b == a;
    } else {
      CompletionsAppend(a, b[..|b| - 1]);
      assert (a + b)[..|a + b| - 1] == a + b[..|b| - 1];
    }
  }

  /** The lease: a running seal owns the claim on the row or the envelope is past sealing,
      it is alone, and a completed write has happened at most once and leaves none running. */
  ghost predicate LeaseHeld(w: World) {
    && (forall p :: RunsSeal(w, p) ==>
          Terminal(w.a.status) || (w.a.status == Sealing && w.a.sealingAt == Some(w.procs[p].claimedAt)))
    && (forall p, q :: RunsSeal(w, p) && RunsSeal(w, q) ==> p == q)
    && Completions(w.a.events) <= 1
    && (Completions(w.a.events) == 1 ==> Terminal(w.a.status) && forall p :: !RunsSeal(w, p))
  }

  predicate NoCompletion(events: seq<Event>) {
    forall i :: 0 <= i < |events| ==> events[i].kind != EvCompleted
  }

  lemma {:induction false} NoCompletionCount(events: seq<Event>)
    requires NoCompletion(events)
    ensures Completions(events) == 0
  {
    if events != [] {
      NoCompletionCount(events[..|events| - 1]);
    }
  }

  lemma {:induction false} SentEventsNoCompletion(n: nat)
    ensures NoCompletion(SentEvents(n))
  {
    if n > 0 {
      SentEventsNoCompletion(n - 1);
    }
  }

  lemma {:induction false} FieldEventsNoCompletion(fields: seq<Field>, ids: seq<int>, form: seq<Entry>, i: nat, adopted: set<string>)
    ensures NoCompletion(FieldEvents(fields, ids, form, i, adopted))
    decreases |ids|
  {
    if ids != [] {
      var v := LastNamed(form, ids[0]);
      FieldEventsNoCompletion(fields, ids[1..], form, i, adopted);
      if v.Some? {
        FieldEventsNoCompletion(fields, ids[1..], form, i, adopted + {v.value.text});
      }
    }
  }

  /** `b`'s log is `a`'s with events of one transaction behind it. */
  predicate Extends(a: Agreement, b: Agreement) {
    |a.events| <= |b.events| && b.events[..|a.events|] == a.events
  }

  function Added(a: Agreement, b: Agreement): seq<Event>
    requires Extends(a, b)
  {
    b.events[|a.events|..]
  }

  /** An act completes nothing, and moves a sealing row only to a status that ends signing. */
  ghost predicate NoSeal(a: Agreement, b: Agreement) {
    && Extends(a, b) && NoCompletion(Added(a, b))
    && (a.status == Sealing ==> Terminal(b.status) || (b.status == Sealing && b.sealingAt == a.sealingAt))
  }

  /** A transaction that logs `more` and is no seal. */
  lemma LogsNoSeal(a: Agreement, b: Agreement, more: seq<Event>)
    requires b.events == a.events + more && NoCompletion(more)
    requires a.status == Sealing ==> Terminal(b.status) || (b.status == Sealing && b.sealingAt == a.sealingAt)
    ensures NoSeal(a, b)
  {
    assert Added(a, b) == more;
  }

  lemma PageActIsNoSeal(a: Agreement, i: nat, token: nat, now: real)
    ensures NoSeal(a, OrElse(SelfSign(a, i, token, now), a))
    ensures NoSeal(a, OrElse(View(a, i, now), a))
    ensures NoSeal(a, OrElse(RecordConsent(a, i, now), a))
  {
    LogsNoSeal(a, a, []);
    if SelfSign(a, i, token, now).Some? {
      LogsNoSeal(a, SelfSign(a, i, token, now).value, [By(EvSelfSign, i)]);
    }
    if View(a, i, now).Some? && View(a, i, now).value != a {
      LogsNoSeal(a, View(a, i, now).value, [By(EvViewed, i)]);
    }
    if RecordConsent(a, i, now).Some? && RecordConsent(a, i, now).value != a {
      LogsNoSeal(a, RecordConsent(a, i, now).value, [By(EvConsent, i)]);
    }
  }

  lemma EndActIsNoSeal(a: Agreement, i: nat)
    ensures NoSeal(a, OrElse(Withdraw(a, i), a))
    ensures NoSeal(a, OrElse(Decline(a, i), a))
  {
    LogsNoSeal(a, a, []);
    if Withdraw(a, i).Some? && Withdraw(a, i).value != a {
      LogsNoSeal(a, Withdraw(a, i).value, [By(EvWithdrawn, i)]);
    }
    if Decline(a, i).Some? {
      LogsNoSeal(a, Decline(a, i).value, [By(EvDeclined, i)]);
    }
  }

  lemma ActIsNoSeal(a: Agreement, act: Act, now: real)
    ensures NoSeal(a, Acted(a, act, now))
  {
    LogsNoSeal(a, a, []);
    match act {
      case ActSelfSign(i, token) => PageActIsNoSeal(a, i, token, now);
      case ActView(i) => PageActIsNoSeal(a, i, 0, now);
      case ActConsent(i) => PageActIsNoSeal(a, i, 0, now);
      case ActWithdraw(i) => EndActIsNoSeal(a, i);
      case ActDecline(i) => EndActIsNoSeal(a, i);
      case ActSend(_) => SentEventsNoCompletion(|a.signers|);
      case _ =>
    }
  }

  lemma CompletionsExtended(a: Agreement, b: Agreement)
    requires Extends(a, b) && NoCompletion(Added(a, b))
    ensures Completions(b.events) == Completions(a.events)
  {
    CompletionsAppend(a.events, Added(a, b));
    NoCompletionCount(Added(a, b));
    assert b.events == a.events + Added(a, b);
  }

  /** Only a claim starts a seal; no other step touches a running one. */
  lemma OnlyClaimsStartSeals(w: World, s: Step)
    requires !s.ClaimSeal?
    ensures forall q :: RunsSeal(Next(w, s), q) ==> RunsSeal(w, q) && Next(w, s).procs[q] == w.procs[q]
  {
    var w' := Next(w, s);
    forall q | RunsSeal(w', q)
      ensures RunsSeal(w, q) && w'.procs[q] == w.procs[q]
    {
      if s.SubmitForm? {
        assert q == s.p || w'.procs[q] == w.procs[q];
      }
    }
  }

  lemma DoKeepsLease(w: World, act: Act)
    requires LeaseHeld(w)
    ensures LeaseHeld(Next(w, Do(act)))
  {
    OnlyClaimsStartSeals(w, Do(act));
    ActIsNoSeal(w.a, act, w.clock);
    if Terminal(w.a.status) {
      ActKeepsTerminal(w.a, act, w.clock);
    }
    LeaseKept(w, Next(w, Do(act)));
  }

  lemma SignAddsNoCompletion(a: Agreement, i: nat, form: Form)
    requires i < |a.signers|
    ensures Extends(a, Sign(a, i, form)) && NoCompletion(Added(a, Sign(a, i, form)))
  {
    FieldEventsNoCompletion(a.doc.fields, NamedIds(form), form, i, {});
  }

  /** The lease looks at the log only to count completions, and at the row's status. */
  lemma LeaseKept(w: World, w': World)
    requires LeaseHeld(w) && NoSeal(w.a, w'.a)
    requires forall q :: RunsSeal(w', q) ==> RunsSeal(w, q) && w'.procs[q] == w.procs[q]
    requires Terminal(w.a.status) ==> Terminal(w'.a.status)
    ensures LeaseHeld(w')
  {
    CompletionsExtended(w.a, w'.a);
  }

  lemma SubmitKeepsLease(w: World, p: nat, i: nat, form: Form, consent: bool)
    requires LeaseHeld(w)
    ensures LeaseHeld(Next(w, SubmitForm(p, i, form, consent)))
  {
    var w' := Next(w, SubmitForm(p, i, form, consent));
    OnlyClaimsStartSeals(w, SubmitForm(p, i, form, consent));
    if p !in w.procs && Submit(w.a, i, form, consent, w.clock).Recorded? {
      SubmitAllowed(w.a, i, form, consent, w.clock);
      SignAddsNoCompletion(w.a, i, form);
      assert w'.a == Sign(w.a, i, form);
    } else {
      LogsNoSeal(w.a, w.a, []);
      assert w'.a == w.a;
    }
    LeaseKept(w, w');
  }

  /** A claim is won only when no seal is running: a running, timely seal's claim is fresh. */
  lemma ClaimKeepsLease(w: World, p: nat, at: real)
    requires LeaseHeld(w) && Timely(w)
    ensures LeaseHeld(Next(w, ClaimSeal(p, at)))
  {
    if p in w.procs && w.procs[p].HasRead? && at <= w.clock && Claimable(w.a, at) {
      assert forall q :: !RunsSeal(w, q);
      forall q | RunsSeal(Next(w, ClaimSeal(p, at)), q)
        ensures q == p
      {
        assert q == p || !RunsSeal(w, q);
      }
    } else {
      forall q | RunsSeal(Next(w, ClaimSeal(p, at)), q)
        ensures RunsSeal(w, q)
      {
      }
    }
  }

  lemma FinishKeepsLease(w: World, p: nat)
    requires LeaseHeld(w)
    ensures LeaseHeld(Next(w, FinishSeal(p)))
  {
    OnlyClaimsStartSeals(w, FinishSeal(p));
    if RunsSeal(w, p) {
      assert forall q :: RunsSeal(w, q) ==> q == p;
      CompletionsAppend(w.a.events, [Of(EvSealed), Of(EvCompleted)]);
      assert Completions([Of(EvSealed)]) == 0;
      assert Completions([Of(EvSealed), Of(EvCompleted)]) == 1;
    }
  }

  lemma OtherKeepsLease(w: World, s: Step)
    requires Orderly(w) && LeaseHeld(w)
    requires s.Tick? || s.Count? || s.Cascade? || s.ReadRow? || s.FailSeal? || s.Crash?
    ensures LeaseHeld(Next(w, s))
  {
    OnlyClaimsStartSeals(w, s);
    assert s.FailSeal? && RunsSeal(w, s.p) ==> forall q :: RunsSeal(w, q) ==> q == s.p;
  }

  lemma NextKeepsLease(w: World, s: Step)
    requires Orderly(w) && LeaseHeld(w) && Timely(w)
    ensures LeaseHeld(Next(w, s))
  {
    match s {
      case Do(act) => DoKeepsLease(w, act);
      case SubmitForm(p, i, form, consent) => SubmitKeepsLease(w, p, i, form, consent);
      case ClaimSeal(p, at) => ClaimKeepsLease(w, p, at);
      case FinishSeal(p) => FinishKeepsLease(w, p);
      case _ => OtherKeepsLease(w, s);
    }
  }

  lemma {:induction false} TimelyRunHoldsLease(w: World, steps: seq<Step>)
    requires Init(w) && TimelyRun(w, steps)
    ensures LeaseHeld(Run(w, steps))
  {
    if steps != [] {
      var init := steps[..|steps| - 1];
      forall k | 0 <= k <= |init|
        ensures Timely(Run(w, init[..k]))
      {
        assert init[..k] == steps[..k];
      }
      TimelyRunHoldsLease(w, init);
      RunOrderly(w, init);
      assert Timely(Run(w, steps[..|init|]));
      NextKeepsLease(Run(w, init), steps[|steps| - 1]);
    }
  }

  /** When every seal ends or dies within its window, at most one is ever running and the
      completed write happens at most once in the whole run. */
  lemma AtMostOneSealerAndOneCompletion(w: World, steps: seq<Step>, p: nat, q: nat)
    requires Init(w) && TimelyRun(w, steps)
    ensures RunsSeal(Run(w, steps), p) && RunsSeal(Run(w, steps), q) ==> p == q
    ensures Completions(Run(w, steps).a.events) <= 1
  {
    TimelyRunHoldsLease(w, steps);
  }

  lemma ReleasesOwnClaim(w: World, p: nat)
    requires LeaseHeld(w) && Orderly(w) && RunsSeal(w, p)
    ensures var after := Next(w, FailSeal(p));
            if Terminal(w.a.status) then after.a == w.a
            else w.a.sealingAt == Some(w.procs[p].claimedAt) && after.a == w.a.(status := OutForSignature)
  {
  }

  /** Under the same bound a failing seal releases only its own claim, back to
      out_for_signature, and leaves an envelope that was voided, declined, withdrawn from or
      completed as it is. */
  lemma ReleaseReopensOnlyOwnClaim(w: World, steps: seq<Step>, p: nat)
    requires Init(w) && TimelyRun(w, steps)
    requires RunsSeal(Run(w, steps), p)
    ensures var before, after := Run(w, steps), Next(Run(w, steps), FailSeal(p));
            if Terminal(before.a.status) then after.a == before.a
            else before.a.sealingAt == Some(before.procs[p].claimedAt) && after.a == before.a.(status := OutForSignature)
  {
    TimelyRunHoldsLease(w, steps);
    RunOrderly(w, steps);
    ReleasesOwnClaim(Run(w, steps), p);
  }
}
