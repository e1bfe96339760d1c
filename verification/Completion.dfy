/** From every reachable state in which an envelope can still be signed, some continuation
    completes it. */
module Completion {
  import opened Basics
  import opened Records
  import opened Envelope
  import opened Runs
  import opened Lease
  import opened Progress
  import opened Overrun
  import Healing
  import Sealed
  import Submission

  // What every run keeps

  /** While an envelope has not ended nobody has withdrawn or declined, and once it was sent
      everybody holds a token. */
  predicate Intact(a: Agreement) {
    && (!Terminal(a.status) ==>
          forall i :: 0 <= i < |a.signers| ==> !a.signers[i].withdrawn && a.signers[i].status != SignerDeclined)
    && (a.status == Drafting ==> a.frozen == None)
    && (a.frozen.Some? ==> forall i :: 0 <= i < |a.signers| ==> a.signers[i].token.Some?)
  }

  lemma LinkActIntact(a: Agreement, i: nat, token: nat, now: real)
    requires Intact(a)
    ensures Intact(OrElse(SelfSign(a, i, token, now), a))
    ensures Intact(OrElse(View(a, i, now), a))
  {
  }

  lemma NoteIntact(a: Agreement, i: nat, unmet: bool, now: real)
    requires Intact(a)
    ensures Intact(OrElse(RecordConsent(a, i, now), a))
    ensures Intact(SetLock(a, i, unmet))
  {
  }

  lemma EndActIntact(a: Agreement, i: nat)
    requires Intact(a) && (a.status == Drafting ==> Unopened(a))
    ensures Intact(OrElse(Withdraw(a, i), a))
    ensures Intact(OrElse(Decline(a, i), a))
  {
  }

  lemma ActIntact(a: Agreement, act: Act, now: real)
    requires Intact(a) && (a.status == Drafting ==> Unopened(a))
    ensures Intact(Acted(a, act, now))
  {
    match act
    case ActSelfSign(i, token) => LinkActIntact(a, i, token, now);
    case ActView(i) => LinkActIntact(a, i, 0, now);
    case ActConsent(i) => NoteIntact(a, i, false, now);
    case ActLock(i, unmet) => NoteIntact(a, i, unmet, now);
    case ActWithdraw(i) => EndActIntact(a, i);
    case ActDecline(i) => EndActIntact(a, i);
    case ActSigners(signers) =>
      assert (forall s :: s in signers ==> FreshSigner(s)) ==> forall i :: 0 <= i < |signers| ==> FreshSigner(signers[i]);
    case _ =>
  }

  lemma NextIntact(w: World, s: Step)
    requires Orderly(w) && Intact(w.a)
    ensures Intact(Next(w, s).a)
  {
    match s
    case Do(act) => ActIntact(w.a, act, w.clock);
    case SubmitForm(p, i, form, consent) =>
      if Submit(w.a, i, form, consent, w.clock).Recorded? {
        SubmitAllowed(w.a, i, form, consent, w.clock);
        SubmitKeeps(w.a, i, form, consent, w.clock);
      }
    case _ =>
  }

  lemma {:induction false} RunIntact(w: World, steps: seq<Step>)
    requires Init(w)
    ensures Intact(Run(w, steps).a)
  {
    if steps != [] {
      RunIntact(w, steps[..|steps| - 1]);
      RunOrderly(w, steps[..|steps| - 1]);
      NextIntact(Run(w, steps[..|steps| - 1]), steps[|steps| - 1]);
    }
  }

  // A form that passes, and an order that follows the turns

  const GOOD := Value("x", false, true, true, true)

  predicate AllGood(form: seq<Entry>) {
    forall j :: 0 <= j < |form| ==> form[j].key.Name? && form[j].value == GOOD
  }

  lemma {:induction false} FindGood(form: seq<Entry>, k: Key)
    requires AllGood(form)
    ensures Find(form, k).Some? ==> Find(form, k).value == GOOD
  {
    if form != [] {
      FindGood(form[1..], k);
    }
  }

  lemma GoodPasses(form: seq<Entry>, f: Field)
    requires AllGood(form) && exists j :: 0 <= j < |form| && form[j].key == Name(f.id)
    ensures FieldPasses(f, form)
  {
    Submission.FindSome(form, Name(f.id));
    FindGood(form, Name(f.id));
  }

  /** The form with a good value under each of the first `n` fields' ids. */
  lemma {:induction false} GoodForm(fields: seq<Field>, n: nat) returns (form: Form)
    requires n <= |fields|
    ensures AllGood(form) && forall k :: 0 <= k < n ==> exists j :: 0 <= j < |form| && form[j].key == Name(fields[k].id)
  {
    if n == 0 {
      form := [];
    } else {
      var before := GoodForm(fields, n - 1);
      form := before;
      if !exists j :: 0 <= j < |before| && before[j].key == Name(fields[n - 1].id) {
        form := before + [Entry(Name(fields[n - 1].id), GOOD)];
        assert form[|before|].key == Name(fields[n - 1].id);
        assert forall j :: 0 <= j < |before| ==> form[j] == before[j];
      }
    }
  }

  lemma PassingForm(fields: seq<Field>) returns (form: Form)
    ensures forall i :: GatePasses(fields, i, form)
    ensures !exists e :: e in form && e.key.Junk?
  {
    form := GoodForm(fields, |fields|);
    forall k | 0 <= k < |fields|
      ensures FieldPasses(fields[k], form)
    {
      GoodPasses(form, fields[k]);
    }
  }

  /** The order names the unsigned signers other than those in `rest`, by their turns, and all in
      `rest` come later. */
  predicate PartOrder(signers: seq<Signer>, order: seq<nat>, rest: set<nat>) {
    && (forall k :: 0 <= k < |order| ==> order[k] < |signers| && signers[order[k]].status != Signed && order[k] !in rest)
    && (forall i: nat :: i in rest ==> i < |signers| && signers[i].status != Signed)
    && (forall i: nat :: i < |signers| && signers[i].status != Signed ==> i in order || i in rest)
    && (forall j, k :: 0 <= j < k < |order| ==> order[j] != order[k])
    && FollowsTurns(signers, order)
    && forall k, i: nat :: 0 <= k < |order| && i in rest ==> Turn(signers[order[k]]) <= Turn(signers[i])
  }

  lemma EarliestOf(signers: seq<Signer>, rest: set<nat>) returns (m: nat)
    requires rest != {} && forall i :: i in rest ==> i < |signers|
    ensures m in rest && forall i :: i in rest ==> Turn(signers[m]) <= Turn(signers[i])
  {
    m :| m in rest;
    var others := rest - {m};
    if others != {} {
      var n := EarliestOf(signers, others);
      assert forall x :: x in rest <==> x in others || x == m;
      if Turn(signers[n]) < Turn(signers[m]) {
        m := n;
      }
    } else {
      assert rest == {m};
    }
  }

  lemma AppendEarliest(signers: seq<Signer>, order: seq<nat>, rest: set<nat>, m: nat)
    requires PartOrder(signers, order, rest) && m in rest && forall i :: i in rest ==> Turn(signers[m]) <= Turn(signers[i])
    ensures PartOrder(signers, order + [m], rest - {m})
  {
    forall i: nat | i < |signers| && signers[i].status != Signed
      ensures i in order + [m] || i in rest - {m}
    {
    }
  }

  lemma OrderByTurns(signers: seq<Signer>) returns (order: seq<nat>)
    ensures Remaining(signers, order) && FollowsTurns(signers, order)
  {
    order := [];
    var rest: set<nat> := set i: nat | i < |signers| && signers[i].status != Signed;
    while rest != {}
      invariant PartOrder(signers, order, rest)
      decreases |rest|
    {
      var m := EarliestOf(signers, rest);
      AppendEarliest(signers, order, rest, m);
      order, rest := order + [m], rest - {m};
    }
  }

  lemma {:induction false} FreeFrom(calls: set<nat>) returns (p: nat)
    ensures forall q :: q in calls ==> q < p
  {
    if calls == {} {
      p := 0;
    } else {
      var q :| q in calls;
      p := FreeFrom(calls - {q});
      if p <= q {
        p := q + 1;
      }
      assert forall x :: x in calls ==> x == q || x in calls - {q};
    }
  }

  // The theorem

  /** Sent and out for signature, with live links, no lock unmet and every consent given. */
  predicate Signable(w: World) {
    && w.a.status == OutForSignature && w.a.frozen.Some? && w.a.signers != [] && !LinkExpired(w.a, w.clock)
    && forall i :: 0 <= i < |w.a.signers| ==>
         !w.a.signers[i].lockUnmet && (w.a.signers[i].consumer ==> w.a.signers[i].consentAt.Some?)
  }

  lemma EveryoneSigns(w: World, p: nat) returns (steps: seq<Step>)
    requires Signable(w) && Intact(w.a) && !AllSigned(w.a.signers) && Free(w, p)
    ensures Run(w, steps).a.status == Completed
  {
    var form := PassingForm(w.a.doc.fields);
    var forms: seq<Form> := seq(|w.a.signers|, i => form);
    forall i | 0 <= i < |forms|
      ensures Willing(w.a, i, forms[i])
    {
    }
    var order := OrderByTurns(w.a.signers);
    EveryoneSubmitsCompletesIff(w, order, forms, p);
    steps := Submissions(order, forms, p) + LastCall(p + |order| - 1, w.clock);
  }

  lemma SomeoneRepeats(w: World, p: nat) returns (steps: seq<Step>)
    requires Signable(w) && Healing.Repeatable(w.a) && AllSigned(w.a.signers) && p !in w.procs
    ensures Run(w, steps).a.status == Completed
  {
    Healing.ResubmitCompletesIff(w, p, 0);
    steps := Healing.Resubmit(p, 0, w.clock);
  }

  lemma SignableCompletes(w0: World, run: seq<Step>) returns (steps: seq<Step>)
    requires Init(w0) && Signable(Run(w0, run))
    ensures Run(Run(w0, run), steps).a.status == Completed
  {
    var w := Run(w0, run);
    RunIntact(w0, run);
    var p := FreeFrom(w.procs.Keys);
    if AllSigned(w.a.signers) {
      Healing.RunRepeatable(w0, run);
      steps := SomeoneRepeats(w, p);
    } else {
      steps := EveryoneSigns(w, p);
    }
  }

  // Locks and consents can be met first

  /** The first `n` signers pass their locks and consent. */
  function Preparing(n: nat): seq<Step> {
    if n == 0 then [] else Preparing(n - 1) + [Do(ActLock(n - 1, false))] + [Do(ActConsent(n - 1))]
  }

  /** Only locks and consents have changed, and those of the first `n` signers are in order. */
  predicate Prepared(a: Agreement, b: Agreement, n: nat) {
    && b == a.(signers := b.signers, events := b.events) && |b.signers| == |a.signers|
    && (forall i :: 0 <= i < |a.signers| ==>
          b.signers[i] == a.signers[i].(lockUnmet := b.signers[i].lockUnmet, consentAt := b.signers[i].consentAt))
    && forall i :: 0 <= i < n && i < |a.signers| ==> !b.signers[i].lockUnmet && b.signers[i].consentAt.Some?
  }

  /** The same, and signer `n` has passed the lock too. */
  predicate HalfPrepared(a: Agreement, b: Agreement, n: nat) {
    Prepared(a, b, n) && n < |b.signers| && !b.signers[n].lockUnmet
  }

  lemma Unlocks(a: Agreement, v: World, i: nat)
    requires Prepared(a, v.a, i) && i < |a.signers|
    ensures HalfPrepared(a, Next(v, Do(ActLock(i, false))).a, i) && Next(v, Do(ActLock(i, false))).clock == v.clock
  {
  }

  /** A recorded consent: the first one stays. */
  lemma ConsentRecorded(a: Agreement, i: nat, now: real)
    requires HoldsToken(a, i) && !a.signers[i].lockUnmet && a.status == OutForSignature
    ensures var b, s := Acted(a, ActConsent(i), now), a.signers[i];
            && b == a.(signers := b.signers, events := b.events)
            && b.signers == a.signers[i := s.(consentAt := Some(if s.consentAt.Some? then s.consentAt.value else now))]
  {
  }

  lemma Consents(a: Agreement, v: World, i: nat)
    requires HalfPrepared(a, v.a, i) && i < |a.signers| && a.signers[i].token.Some? && a.status == OutForSignature
    ensures Prepared(a, Next(v, Do(ActConsent(i))).a, i + 1) && Next(v, Do(ActConsent(i))).clock == v.clock
  {
    ConsentRecorded(v.a, i, v.clock);
  }

  lemma OnePrepares(a: Agreement, v: World, i: nat)
    requires Prepared(a, v.a, i) && i < |a.signers| && a.signers[i].token.Some? && a.status == OutForSignature
    ensures var u := Next(Next(v, Do(ActLock(i, false))), Do(ActConsent(i))); Prepared(a, u.a, i + 1) && u.clock == v.clock
  {
    Unlocks(a, v, i);
    Consents(a, Next(v, Do(ActLock(i, false))), i);
  }

  lemma TwoMore(w: World, before: seq<Step>, a: Step, b: Step)
    ensures Run(w, before + [a] + [b]) == Next(Next(Run(w, before), a), b)
  {
    RunThen(w, before, a);
    RunThen(w, before + [a], b);
  }

  /** The world after that. */
  function PreparedWorld(w: World, n: nat): World {
    if n == 0 then w else Next(Next(PreparedWorld(w, n - 1), Do(ActLock(n - 1, false))), Do(ActConsent(n - 1)))
  }

  lemma {:induction false} PreparingRuns(w: World, n: nat)
    ensures Run(w, Preparing(n)) == PreparedWorld(w, n)
  {
    if n > 0 {
      PreparingRuns(w, n - 1);
      TwoMore(w, Preparing(n - 1), Do(ActLock(n - 1, false)), Do(ActConsent(n - 1)));
    }
  }

  lemma {:induction false} EveryonePrepares(w: World, n: nat)
    requires w.a.status == OutForSignature && n <= |w.a.signers|
    requires forall i :: 0 <= i < |w.a.signers| ==> w.a.signers[i].token.Some?
    ensures Prepared(w.a, PreparedWorld(w, n).a, n) && PreparedWorld(w, n).clock == w.clock
  {
    if n > 0 {
      EveryonePrepares(w, n - 1);
      OnePrepares(w.a, PreparedWorld(w, n - 1), n - 1);
    }
  }

  /** Sent, out for signature, and the links are alive. */
  predicate Signing(w: World) {
    w.a.status == OutForSignature && w.a.frozen.Some? && !LinkExpired(w.a, w.clock)
  }

  /** In every reachable state in which an envelope is sent and out for signature and its links
      are alive, whatever calls are under way, some continuation completes it. */
  lemma SomeContinuationCompletes(w0: World, run: seq<Step>) returns (steps: seq<Step>)
    requires Init(w0) && Signing(Run(w0, run))
    ensures Run(Run(w0, run), steps).a.status == Completed
  {
    var w := Run(w0, run);
    var n := |w.a.signers|;
    RunIntact(w0, run);
    RunOrderly(w0, run);
    EveryonePrepares(w, n);
    PreparingRuns(w, n);
    RunAppend(w0, run, Preparing(n));
    var rest := SignableCompletes(w0, run + Preparing(n));
    RunAppend(w, Preparing(n), rest);
    steps := Preparing(n) + rest;
  }

  // With dead links, none does

  /** Signer `k` has not signed, no seal is running, and the links have expired. */
  ghost predicate Dead(w: World, k: nat) {
    && w.a.status != Drafting && w.a.status != Completed && LinkExpired(w.a, w.clock)
    && k < |w.a.signers| && w.a.signers[k].status != Signed && forall p :: p in w.procs ==> !w.procs[p].Sealer?
  }

  lemma ActStaysDead(w: World, act: Act, k: nat)
    requires Dead(w, k)
    ensures Dead(Next(w, Do(act)), k)
  {
    var a, b := w.a, Acted(w.a, act, w.clock);
    assert b.sentAt == a.sentAt && b.createdAt == a.createdAt;
    Sealed.ActSignsNobody(a, act, w.clock);
  }

  lemma CallStaysDead(w: World, s: Step, k: nat)
    requires Orderly(w) && Dead(w, k) && !s.Do? && !s.SubmitForm?
    ensures Dead(Next(w, s), k)
  {
    if s.ClaimSeal? && s.p in w.procs && w.procs[s.p].HasRead? {
      assert !AllSigned(w.a.signers) && Settled(w.a);
    }
  }

  lemma NextStaysDead(w: World, s: Step, k: nat)
    requires Orderly(w) && Dead(w, k)
    ensures Dead(Next(w, s), k)
  {
    match s
    case Do(act) => ActStaysDead(w, act, k);
    case SubmitForm(p, i, form, consent) => assert !Submit(w.a, i, form, consent, w.clock).Recorded?;
    case _ => CallStaysDead(w, s, k);
  }

  lemma {:induction false} StaysDead(w: World, steps: seq<Step>, k: nat)
    requires Orderly(w) && Dead(w, k)
    ensures Dead(Run(w, steps), k)
  {
    if steps != [] {
      StaysDead(w, steps[..|steps| - 1], k);
      OrderlyFrom(w, steps[..|steps| - 1]);
      NextStaysDead(Run(w, steps[..|steps| - 1]), steps[|steps| - 1], k);
    }
  }

  /** While someone has not signed, a sent envelope that is out for signature can still be
      completed if and only if its links are alive. */
  lemma CompletableIffLinksLive(w0: World, run: seq<Step>)
    requires Init(w0)
    requires var a := Run(w0, run).a; a.status == OutForSignature && a.frozen.Some? && !AllSigned(a.signers)
    ensures var w := Run(w0, run);
            (exists steps :: Run(w, steps).a.status == Completed) <==> !LinkExpired(w.a, w.clock)
  {
    var w := Run(w0, run);
    RunOrderly(w0, run);
    if LinkExpired(w.a, w.clock) {
      var k :| 0 <= k < |w.a.signers| && w.a.signers[k].status != Signed;
      forall steps
        ensures Run(w, steps).a.status != Completed
      {
        StaysDead(w, steps, k);
      }
    } else {
      var steps := SomeContinuationCompletes(w0, run);
    }
  }
}
