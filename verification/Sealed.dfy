/** What was shown is what is sealed: once an envelope has left draft, nothing a signer saw
    changes, no one who signed can be made to have signed something else, and the executed
    copy is stamped on exactly those bytes, with every required value that can be drawn. */
module Sealed {
  import opened Basics
  import opened Records
  import opened Envelope
  import opened Runs
  import opened Lease
  import Csv
  import Pages
  import Stamping
  import Submission

  predicate AllSpent(a: Agreement) {
    forall k :: 0 <= k < |a.signers| ==> Spent(a.signers[k])
  }

  /** The field belongs to a signer who may still fill it in. */
  predicate Open(a: Agreement, f: Field) {
    f.owner.Some? && 0 <= f.owner.value < |a.signers| && !Spent(a.signers[f.owner.value])
  }

  predicate SignerKept(s: Signer, t: Signer) {
    && t.email == s.email && t.order == s.order && t.consumer == s.consumer
    && (s.token.Some? ==> t.token == s.token)
    && (Spent(s) ==> Spent(t))
  }

  predicate FieldKept(a: Agreement, f: Field, g: Field) {
    g == f.(value := g.value) && (!Open(a, f) ==> g.value == f.value)
  }

  /** Nothing that was shown in `a` is different in `b`. */
  ghost predicate Kept(a: Agreement, b: Agreement) {
    && b.status != Drafting && b.sequential == a.sequential
    && b.frozen == a.frozen && b.doc.pages == a.doc.pages && b.doc.edited == a.doc.edited
    && |b.signers| == |a.signers| && |b.doc.fields| == |a.doc.fields|
    && (forall k :: 0 <= k < |a.signers| ==> SignerKept(a.signers[k], b.signers[k]))
    && (forall k :: 0 <= k < |a.doc.fields| ==> FieldKept(a, a.doc.fields[k], b.doc.fields[k]))
    && (a.executed.Some? ==> b.executed.Some?)
  }

  lemma KeptTransitive(a: Agreement, b: Agreement, c: Agreement)
    requires Kept(a, b) && Kept(b, c)
    ensures Kept(a, c)
  {
    forall k | 0 <= k < |a.signers|
      ensures SignerKept(a.signers[k], c.signers[k])
    {
      assert SignerKept(a.signers[k], b.signers[k]) && SignerKept(b.signers[k], c.signers[k]);
    }
    forall k | 0 <= k < |a.doc.fields|
      ensures FieldKept(a, a.doc.fields[k], c.doc.fields[k])
    {
      var f := a.doc.fields[k];
      assert FieldKept(a, f, b.doc.fields[k]) && FieldKept(b, b.doc.fields[k], c.doc.fields[k]);
      if !Open(a, f) && f.owner.Some? && 0 <= f.owner.value < |a.signers| {
        assert SignerKept(a.signers[f.owner.value], b.signers[f.owner.value]);
      }
    }
  }

  /** With everyone spent, the document itself is fixed. */
  lemma SpentFixesDoc(a: Agreement, b: Agreement)
    requires Kept(a, b) && AllSpent(a)
    ensures b.doc == a.doc && AllSpent(b)
  {
    forall k | 0 <= k < |a.doc.fields|
      ensures b.doc.fields[k] == a.doc.fields[k]
    {
      assert FieldKept(a, a.doc.fields[k], b.doc.fields[k]);
    }
    forall k | 0 <= k < |b.signers|
      ensures Spent(b.signers[k])
    {
      assert SignerKept(a.signers[k], b.signers[k]);
    }
  }

  lemma SameRowKept(a: Agreement, b: Agreement)
    requires b.status != Drafting && b.signers == a.signers && b.doc == a.doc && b.frozen == a.frozen
    requires b.sequential == a.sequential && (a.executed.Some? ==> b.executed.Some?)
    ensures Kept(a, b)
  {
  }

  /** A transaction that touches one signer's row, the status and the log. */
  lemma OneRowKept(a: Agreement, i: nat, b: Agreement)
    requires b.status != Drafting && b.doc == a.doc && b.frozen == a.frozen
    requires b.sequential == a.sequential && b.executed == a.executed
    requires i < |a.signers| == |b.signers| && b.signers == a.signers[i := b.signers[i]] && SignerKept(a.signers[i], b.signers[i])
    ensures Kept(a, b)
  {
  }

  lemma PageActKept(a: Agreement, i: nat, token: nat, unmet: bool, now: real)
    requires a.status != Drafting && i < |a.signers|
    ensures Kept(a, OrElse(SelfSign(a, i, token, now), a))
    ensures Kept(a, OrElse(RecordConsent(a, i, now), a))
    ensures Kept(a, SetLock(a, i, unmet))
  {
    SameRowKept(a, a);
    OneRowKept(a, i, SetLock(a, i, unmet));
    if SelfSign(a, i, token, now).Some? {
      OneRowKept(a, i, SelfSign(a, i, token, now).value);
    }
    if RecordConsent(a, i, now).Some? {
      OneRowKept(a, i, RecordConsent(a, i, now).value);
    }
  }

  lemma ViewKept(a: Agreement, i: nat, now: real)
    requires a.status != Drafting && View(a, i, now).Some?
    ensures Kept(a, View(a, i, now).value)
  {
    OneRowKept(a, i, View(a, i, now).value);
  }

  lemma EndActKept(a: Agreement, i: nat)
    requires a.status != Drafting
    ensures Kept(a, OrElse(Withdraw(a, i), a))
    ensures Kept(a, OrElse(Decline(a, i), a))
  {
    SameRowKept(a, a);
    if Withdraw(a, i).Some? {
      OneRowKept(a, i, Withdraw(a, i).value);
    }
    if Decline(a, i).Some? {
      OneRowKept(a, i, Decline(a, i).value);
    }
  }

  lemma SignerActKept(a: Agreement, act: Act, now: real)
    requires a.status != Drafting
    requires act.ActSelfSign? || act.ActView? || act.ActConsent? || act.ActLock? || act.ActWithdraw? || act.ActDecline?
    ensures Kept(a, Acted(a, act, now))
  {
    if act.i >= |a.signers| {
      assert Acted(a, act, now) == a;
      SameRowKept(a, a);
    } else {
      match act
      case ActWithdraw(i) => EndActKept(a, i);
      case ActDecline(i) => EndActKept(a, i);
      case ActView(i) => if View(a, i, now).Some? { ViewKept(a, i, now); } else { SameRowKept(a, a); }
      case ActSelfSign(i, token) => PageActKept(a, i, token, false, now);
      case ActConsent(i) => PageActKept(a, i, 0, false, now);
      case ActLock(i, unmet) => PageActKept(a, i, 0, unmet, now);
    }
  }

  lemma ActKept(a: Agreement, act: Act, now: real)
    requires a.status != Drafting
    ensures Kept(a, Acted(a, act, now))
  {
    if act.ActSelfSign? || act.ActView? || act.ActConsent? || act.ActLock? || act.ActWithdraw? || act.ActDecline? {
      SignerActKept(a, act, now);
    } else {
      SameRowKept(a, Acted(a, act, now));
    }
  }

  lemma SignKept(a: Agreement, i: nat, form: Form)
    requires a.status != Drafting && i < |a.signers| && !Spent(a.signers[i])
    ensures Kept(a, Sign(a, i, form)) && Sign(a, i, form).executed == a.executed
  {
  }

  lemma SealStepKept(w: World, s: Step)
    requires Orderly(w) && w.a.status != Drafting && !s.Do? && !s.SubmitForm?
    ensures Kept(w.a, Next(w, s).a)
  {
    SameRowKept(w.a, Next(w, s).a);
  }

  lemma NextKept(w: World, s: Step)
    requires Orderly(w) && w.a.status != Drafting
    ensures Kept(w.a, Next(w, s).a)
  {
    match s {
      case Do(act) => ActKept(w.a, act, w.clock);
      case SubmitForm(p, i, form, consent) =>
        SameRowKept(w.a, w.a);
        if Submit(w.a, i, form, consent, w.clock).Recorded? {
          SubmitAllowed(w.a, i, form, consent, w.clock);
          SignKept(w.a, i, form);
        }
      case _ => SealStepKept(w, s);
    }
  }

  /** From the moment an envelope leaves draft, in every continuation of every run: the bytes
      presented, the signers, their tokens and the placed fields stay as they are, and no
      value of a signer who has signed or withdrawn changes again. */
  lemma {:induction false} NothingShownChanges(w: World, steps: seq<Step>)
    requires Orderly(w) && w.a.status != Drafting
    ensures Kept(w.a, Run(w, steps).a) && Presented(Run(w, steps).a) == Presented(w.a)
  {
    if steps == [] {
      SameRowKept(w.a, w.a);
    } else {
      var before, s := Run(w, steps[..|steps| - 1]), steps[|steps| - 1];
      NothingShownChanges(w, steps[..|steps| - 1]);
      OrderlyFrom(w, steps[..|steps| - 1]);
      NextKept(before, s);
      KeptTransitive(w.a, before.a, Next(before, s).a);
    }
  }

  // ---- required values ------------------------------------------------------------------

  /** Every required field of a signer who has signed is as `ok` says. */
  ghost predicate SignedAreFilled(a: Agreement, ok: Field -> bool) {
    forall k, i: nat ::
      (0 <= k < |a.doc.fields| && i < |a.signers| && a.signers[i].status == Signed && RequiredOf(a.doc.fields[k], i))
      ==> ok(a.doc.fields[k])
  }

  /** Every required field that belongs to a signer is as `ok` says. */
  ghost predicate AllFilled(a: Agreement, ok: Field -> bool) {
    forall k, i: nat ::
      (0 <= k < |a.doc.fields| && i < |a.signers| && RequiredOf(a.doc.fields[k], i))
      ==> ok(a.doc.fields[k])
  }

  predicate NoneSigned(a: Agreement) {
    forall i :: 0 <= i < |a.signers| ==> a.signers[i].status == Pending && a.signers[i].token.None?
  }

  /** The form leaves in each required field of signer `i` what `ok` says. */
  ghost predicate FormFills(fields: seq<Field>, i: nat, form: seq<Entry>, ok: Field -> bool) {
    forall k :: 0 <= k < |fields| && RequiredOf(fields[k], i) ==> ok(WriteValue(fields[k], i, form))
  }

  lemma SignFills(a: Agreement, i: nat, form: Form, ok: Field -> bool)
    requires SignedAreFilled(a, ok) && i < |a.signers| && FormFills(a.doc.fields, i, form, ok)
    ensures SignedAreFilled(Sign(a, i, form), ok)
  {
    var b := Sign(a, i, form);
    forall k, j: nat | 0 <= k < |b.doc.fields| && j < |b.signers| && b.signers[j].status == Signed && RequiredOf(b.doc.fields[k], j)
      ensures ok(b.doc.fields[k])
    {
      assert RequiredOf(a.doc.fields[k], j);
    }
  }

  /** No act other than a submission gives anyone the status `Signed`. */
  ghost predicate SignsNobody(a: Agreement, b: Agreement) {
    && |b.signers| == |a.signers| && b.doc == a.doc && b.executed == a.executed
    && forall i :: 0 <= i < |a.signers| && b.signers[i].status == Signed ==> a.signers[i].status == Signed
  }

  lemma PageActSignsNobody(a: Agreement, i: nat, token: nat, now: real)
    requires a.status != Drafting
    ensures SignsNobody(a, OrElse(SelfSign(a, i, token, now), a))
    ensures SignsNobody(a, OrElse(View(a, i, now), a))
    ensures SignsNobody(a, OrElse(RecordConsent(a, i, now), a))
  {
  }

  lemma EndActSignsNobody(a: Agreement, i: nat, unmet: bool)
    requires a.status != Drafting
    ensures SignsNobody(a, SetLock(a, i, unmet))
    ensures SignsNobody(a, OrElse(Withdraw(a, i), a))
    ensures SignsNobody(a, OrElse(Decline(a, i), a))
  {
  }

  lemma ActSignsNobody(a: Agreement, act: Act, now: real)
    requires a.status != Drafting
    ensures SignsNobody(a, Acted(a, act, now))
  {
    if act.ActSelfSign? || act.ActView? || act.ActConsent? || act.ActLock? || act.ActWithdraw? || act.ActDecline? {
      PageActSignsNobody(a, act.i, if act.ActSelfSign? then act.token else 0, now);
      EndActSignsNobody(a, act.i, act.ActLock? && act.unmet);
    }
  }

  lemma DraftActSignsNobody(a: Agreement, act: Act, now: real)
    requires a.status == Drafting && NoneSigned(a)
    ensures var b := Acted(a, act, now);
            && (forall i :: 0 <= i < |b.signers| ==> b.signers[i].status != Signed)
            && (b.status == Drafting ==> NoneSigned(b))
            && b.executed == a.executed && b.status != Completed
  {
    if act.ActSigners? && forall s :: s in act.signers ==> FreshSigner(s) {
      assert forall i :: 0 <= i < |act.signers| ==> FreshSigner(act.signers[i]);
    }
  }

  /** What a call of `finalize` has read is still so, unless the envelope can no longer be
      sealed; what a running seal has read is still so in any case. */
  ghost predicate Snapshots(w: World, ok: Field -> bool) {
    forall p :: p in w.procs ==>
      match w.procs[p]
      case HasRead(read) => Terminal(w.a.status) || (AllSpent(w.a) && read.doc == w.a.doc && read.frozen == w.a.frozen)
      case Sealer(read, _) => AllSpent(w.a) && AllFilled(w.a, ok) && read.doc == w.a.doc && read.frozen == w.a.frozen
      case _ => true
  }

  /** An executed copy is the one its row makes, and everyone is done. */
  ghost predicate CopyIsRow(a: Agreement, ok: Field -> bool) {
    a.executed.Some? ==> AllSpent(a) && AllFilled(a, ok) && a.executed.value == ExecutedFrom(a)
  }

  ghost predicate Truthful(w: World, ok: Field -> bool) {
    && (w.a.status == Drafting ==> NoneSigned(w.a) && w.a.executed == None)
    && SignedAreFilled(w.a, ok)
    && Snapshots(w, ok)
    && (w.a.status == Completed ==> w.a.executed.Some?)
    && CopyIsRow(w.a, ok)
  }

  lemma SnapshotsKept(w: World, w': World, ok: Field -> bool)
    requires Snapshots(w, ok) && w'.procs == w.procs && Kept(w.a, w'.a)
    requires Terminal(w.a.status) ==> Terminal(w'.a.status)
    ensures Snapshots(w', ok)
  {
    if AllSpent(w.a) {
      SpentFixesDoc(w.a, w'.a);
    }
  }

  lemma DraftDoTruthful(w: World, act: Act, ok: Field -> bool)
    requires Orderly(w) && Truthful(w, ok) && w.a.status == Drafting
    ensures Truthful(Next(w, Do(act)), ok)
  {
    DraftActSignsNobody(w.a, act, w.clock);
  }

  lemma CopyStaysRow(a: Agreement, b: Agreement, ok: Field -> bool)
    requires SignsNobody(a, b) && Kept(a, b) && SignedAreFilled(a, ok) && CopyIsRow(a, ok)
    ensures SignedAreFilled(b, ok) && CopyIsRow(b, ok)
  {
    if AllSpent(a) {
      SpentFixesDoc(a, b);
    }
    assert ExecutedFrom(b) == ExecutedFrom(a);
  }

  lemma SentDoTruthful(w: World, act: Act, ok: Field -> bool)
    requires Orderly(w) && Truthful(w, ok) && w.a.status != Drafting
    ensures Truthful(Next(w, Do(act)), ok)
  {
    var w' := Next(w, Do(act));
    ActKept(w.a, act, w.clock);
    ActSignsNobody(w.a, act, w.clock);
    if Terminal(w.a.status) {
      ActKeepsTerminal(w.a, act, w.clock);
    }
    SnapshotsKept(w, w', ok);
    CopyStaysRow(w.a, w'.a, ok);
    assert w'.a.status == Completed ==> w.a.status == Completed;
  }

  lemma SignTruthful(w: World, w': World, i: nat, form: Form, ok: Field -> bool)
    requires Truthful(w, ok) && w.a.status != Drafting && i < |w.a.signers| && !Spent(w.a.signers[i])
    requires FormFills(w.a.doc.fields, i, form, ok)
    requires w'.a == Sign(w.a, i, form)
    requires forall q :: q in w'.procs ==> w'.procs[q].Counting? || (q in w.procs && w'.procs[q] == w.procs[q])
    ensures Truthful(w', ok)
  {
    SignKept(w.a, i, form);
    SignFills(w.a, i, form, ok);
    assert !AllSpent(w.a);
  }

  /** The step is a submission that is recorded. */
  predicate RecordsForm(w: World, s: Step) {
    s.SubmitForm? && s.p !in w.procs && Submit(w.a, s.i, s.form, s.consent, w.clock).Recorded?
  }

  ghost predicate StepFills(w: World, s: Step, ok: Field -> bool) {
    RecordsForm(w, s) ==> FormFills(w.a.doc.fields, s.i, s.form, ok)
  }

  lemma SubmitTruthful(w: World, p: nat, i: nat, form: Form, consent: bool, ok: Field -> bool)
    requires Orderly(w) && Truthful(w, ok)
    requires StepFills(w, SubmitForm(p, i, form, consent), ok)
    ensures Truthful(Next(w, SubmitForm(p, i, form, consent)), ok)
  {
    var w' := Next(w, SubmitForm(p, i, form, consent));
    SubmitKeeps(w.a, i, form, consent, w.clock);
    if RecordsForm(w, SubmitForm(p, i, form, consent)) {
      SubmitAllowed(w.a, i, form, consent, w.clock);
      SignTruthful(w, w', i, form, ok);
    }
  }

  lemma EveryoneSignedFills(a: Agreement, ok: Field -> bool)
    requires SignedAreFilled(a, ok) && AllSigned(a.signers)
    ensures AllFilled(a, ok) && AllSpent(a)
  {
    forall k, i: nat | 0 <= k < |a.doc.fields| && i < |a.signers| && RequiredOf(a.doc.fields[k], i)
      ensures ok(a.doc.fields[k])
    {
      assert a.signers[i].status == Signed;
    }
  }

  lemma ClaimTruthful(w: World, p: nat, at: real, ok: Field -> bool)
    requires Orderly(w) && Truthful(w, ok)
    ensures Truthful(Next(w, ClaimSeal(p, at)), ok)
  {
    if p in w.procs && w.procs[p].HasRead? && at <= w.clock && Claimable(w.a, at) {
      EveryoneSignedFills(w.a, ok);
    }
  }

  lemma FinishTruthful(w: World, p: nat, ok: Field -> bool)
    requires Orderly(w) && Truthful(w, ok)
    ensures Truthful(Next(w, FinishSeal(p)), ok)
  {
    if RunsSeal(w, p) {
      var read := w.procs[p].read;
      assert ExecutedFrom(read) == ExecutedFrom(w.a);
    }
  }

  lemma ReadTruthful(w: World, p: nat, ok: Field -> bool)
    requires Orderly(w) && Truthful(w, ok)
    ensures Truthful(Next(w, ReadRow(p)), ok)
  {
    if p in w.procs && w.procs[p].Called? {
      assert Settled(w.a);
      assert !Terminal(w.a.status) ==> AllSpent(w.a);
    }
  }

  lemma CallTruthful(w: World, s: Step, ok: Field -> bool)
    requires Orderly(w) && Truthful(w, ok)
    requires s.Tick? || s.Count? || s.Cascade? || s.Crash?
    ensures Truthful(Next(w, s), ok)
  {
    assert Next(w, s).a == w.a;
  }

  /** A change of status alone, with no new call, keeps it all. */
  lemma StatusTruthful(w: World, w': World, ok: Field -> bool)
    requires Truthful(w, ok) && w.a.status != Drafting && w'.a.status != Drafting
    requires w'.a == w.a.(status := w'.a.status)
    requires forall q :: q in w'.procs ==> q in w.procs && w'.procs[q] == w.procs[q]
    requires Terminal(w.a.status) ==> w'.a.status == w.a.status
    requires w'.a.status == Completed ==> w.a.status == Completed
    ensures Truthful(w', ok)
  {
    assert ExecutedFrom(w'.a) == ExecutedFrom(w.a);
  }

  lemma FailTruthful(w: World, p: nat, ok: Field -> bool)
    requires Orderly(w) && Truthful(w, ok)
    ensures Truthful(Next(w, FailSeal(p)), ok)
  {
    if RunsSeal(w, p) {
      assert InFlight(w.procs[p].read.status);
      StatusTruthful(w, Next(w, FailSeal(p)), ok);
    }
  }

  /** Every recorded form of the run leaves in the signer's required fields what `ok` says. */
  ghost predicate RunFills(w: World, steps: seq<Step>, ok: Field -> bool) {
    forall k :: 0 <= k < |steps| ==> StepFills(Run(w, steps[..k]), steps[k], ok)
  }

  lemma {:induction false} RunTruthful(w: World, steps: seq<Step>, ok: Field -> bool)
    requires Init(w) && RunFills(w, steps, ok)
    ensures Truthful(Run(w, steps), ok)
  {
    if steps != [] {
      var prefix := steps[..|steps| - 1];
      forall k | 0 <= k < |prefix|
        ensures prefix[..k] == steps[..k]
      {
      }
      RunTruthful(w, prefix, ok);
      RunOrderly(w, prefix);
      NextTruthful(Run(w, prefix), steps[|steps| - 1], ok);
    }
  }

  lemma NextTruthful(w: World, s: Step, ok: Field -> bool)
    requires Orderly(w) && Truthful(w, ok) && StepFills(w, s, ok)
    ensures Truthful(Next(w, s), ok)
  {
    match s {
      case Do(act) =>
        if w.a.status == Drafting { DraftDoTruthful(w, act, ok); } else { SentDoTruthful(w, act, ok); }
      case SubmitForm(p, i, form, consent) => SubmitTruthful(w, p, i, form, consent, ok);
      case ClaimSeal(p, at) => ClaimTruthful(w, p, at, ok);
      case FinishSeal(p) => FinishTruthful(w, p, ok);
      case ReadRow(p) => ReadTruthful(w, p, ok);
      case FailSeal(p) => FailTruthful(w, p, ok);
      case _ => CallTruthful(w, s, ok);
    }
  }

  /** If the form is recorded, the key that is tested for each required field of the signer is
      the last to name that field. */
  ghost predicate TestsLast(w: World, s: Step) {
    RecordsForm(w, s) ==>
      forall k :: 0 <= k < |w.a.doc.fields| && RequiredOf(w.a.doc.fields[k], s.i)
        ==> Submission.TestedIsLast(Submission.Keys(s.form), w.a.doc.fields[k].id)
  }

  ghost predicate TestedLastForms(w: World, steps: seq<Step>) {
    forall k :: 0 <= k < |steps| ==> TestsLast(Run(w, steps[..k]), steps[k])
  }

  /** Every form submitted in the run names each field once. */
  predicate PlainForms(steps: seq<Step>) {
    forall k :: 0 <= k < |steps| && steps[k].SubmitForm? ==> Submission.NamesOnce(steps[k].form)
  }

  /** Forms that name each field once will do. */
  lemma PlainFormsAreTestedLast(w: World, steps: seq<Step>)
    requires PlainForms(steps)
    ensures TestedLastForms(w, steps)
  {
    forall k, id | 0 <= k < |steps| && steps[k].SubmitForm?
      ensures Submission.TestedIsLast(Submission.Keys(steps[k].form), id)
    {
      Submission.NamesOnceTestsLast(steps[k].form, id);
    }
  }

  predicate Passing(f: Field) {
    Accepts(f.kind, f.value)
  }

  predicate AnyField(f: Field) {
    true
  }

  lemma TestedLastFills(w: World, s: Step)
    requires TestsLast(w, s)
    ensures StepFills(w, s, Passing)
  {
    if RecordsForm(w, s) {
      SubmitAllowed(w.a, s.i, s.form, s.consent, w.clock);
      forall k | 0 <= k < |w.a.doc.fields| && RequiredOf(w.a.doc.fields[k], s.i)
        ensures Passing(WriteValue(w.a.doc.fields[k], s.i, s.form))
      {
        Submission.AcceptedFormStoresGoodValues(w.a.doc.fields, s.i, s.form, k);
      }
    }
  }

  predicate IsImage(kind: Kind) {
    kind == Signature || kind == Initials
  }

  /** The mark a signer's accepted value is meant to leave. */
  function Due(kind: Kind): Stamping.Mark {
    if IsImage(kind) then Stamping.Picture else if kind == Checkbox then Stamping.Tick else Stamping.Words
  }

  predicate Shows(copy: Executed, f: Field) {
    Stamping.Stamp(f, Due(f.kind)) in copy.stamps
  }

  lemma ShownIff(a: Agreement, f: Field)
    requires f in a.doc.fields && Accepts(f.kind, f.value)
    ensures var copy := ExecutedFrom(a);
            Shows(copy, f) <==> Stamping.Placeable(|copy.base|, f) && (IsImage(f.kind) ==> f.value.drawable)
  {
    Stamping.StampedIff(|Presented(a)|, Handed(a.doc.fields), f, Due(f.kind));
  }

  lemma FilledByIndex(a: Agreement, ok: Field -> bool, f: Field, i: nat)
    requires AllFilled(a, ok) && f in a.doc.fields && i < |a.signers| && RequiredOf(f, i)
    ensures ok(f)
  {
    var k :| 0 <= k < |a.doc.fields| && a.doc.fields[k] == f;
  }

  /** A completed envelope's executed copy is stamped on the bytes that were presented. Every
      required field that belongs to a signer holds a value that passes its test, and the copy
      shows it, as an image, a tick or a text, exactly when its page is in the document, its
      box is not empty and, for a signature or initials, the text as it was stored can be
      drawn. This holds in every run, overrunning seals included, in whose recorded forms the
      tested key of a required field is the last to name it. */
  lemma CompletedCopyIsWhatWasShown(w: World, steps: seq<Step>)
    requires Init(w) && TestedLastForms(w, steps)
    ensures var a := Run(w, steps).a;
            && (a.status == Completed ==> a.executed.Some?)
            && (a.executed.Some? ==>
                  && a.executed.value.base == Presented(a)
                  && forall f, i: nat :: f in a.doc.fields && i < |a.signers| && RequiredOf(f, i)
                       ==> Accepts(f.kind, f.value)
                           && (Shows(a.executed.value, f) <==>
                                 Stamping.Placeable(|a.executed.value.base|, f) && (IsImage(f.kind) ==> f.value.drawable)))
  {
    forall k | 0 <= k < |steps|
      ensures StepFills(Run(w, steps[..k]), steps[k], Passing)
    {
      TestedLastFills(Run(w, steps[..k]), steps[k]);
    }
    RunTruthful(w, steps, Passing);
    var a := Run(w, steps).a;
    if a.executed.Some? {
      forall f, i: nat | f in a.doc.fields && i < |a.signers| && RequiredOf(f, i)
        ensures Accepts(f.kind, f.value)
        ensures Shows(a.executed.value, f) <==>
                  Stamping.Placeable(|a.executed.value.base|, f) && (IsImage(f.kind) ==> f.value.drawable)
      {
        FilledByIndex(a, Passing, f, i);
        ShownIff(a, f);
      }
    }
  }

  /** In every run, whatever the forms, nothing is stamped for a field off the document or with an
      empty box. */
  lemma StampedOnlyIfPlaceable(w: World, steps: seq<Step>, f: Field, mark: Stamping.Mark)
    requires Init(w)
    ensures var a := Run(w, steps).a;
            a.executed.Some? && Stamping.Stamp(f, mark) in a.executed.value.stamps ==>
              && f in a.doc.fields && !f.value.blank
              && Stamping.Placeable(|a.executed.value.base|, f) && mark == Stamping.MarkOf(f)
  {
    RunTruthful(w, steps, AnyField);
    var a := Run(w, steps).a;
    Stamping.StampedIff(|Presented(a)|, Handed(a.doc.fields), f, mark);
  }

  /** If the form is recorded, every text in it is read with `valid` and is its own trim. */
  ghost predicate Trimmed(w: World, s: Step, valid: string -> bool) {
    RecordsForm(w, s) ==>
      forall j :: 0 <= j < |s.form| ==> Stamping.ReadBy(s.form[j].value, valid) && Csv.Strip(s.form[j].value.text) == s.form[j].value.text
  }

  ghost predicate TrimmedForms(w: World, steps: seq<Step>, valid: string -> bool) {
    forall k :: 0 <= k < |steps| ==> Trimmed(Run(w, steps[..k]), steps[k], valid)
  }

  predicate DrawnAsTested(f: Field) {
    Accepts(f.kind, f.value) && f.value.drawable == f.value.image
  }

  lemma TrimmedFills(w: World, s: Step, valid: string -> bool)
    requires TestsLast(w, s) && Trimmed(w, s, valid)
    ensures StepFills(w, s, DrawnAsTested)
  {
    if RecordsForm(w, s) {
      SubmitAllowed(w.a, s.i, s.form, s.consent, w.clock);
      forall k | 0 <= k < |w.a.doc.fields| && RequiredOf(w.a.doc.fields[k], s.i)
        ensures DrawnAsTested(WriteValue(w.a.doc.fields[k], s.i, s.form))
      {
        Submission.AcceptedFormStoresGoodValues(w.a.doc.fields, s.i, s.form, k);
        var j :| 0 <= j < |s.form| && s.form[j].value == WriteValues(w.a.doc.fields, s.i, s.form)[k].value;
        Stamping.TrimmedIsDrawnAsTested(s.form[j].value, valid);
      }
    }
  }

  /** If the recorded texts carry no outer white space either, whatever decodes the images, the
      copy shows every required field of a signer whose page is in the document and whose box
      is not empty. */
  lemma TrimmedFormsAreShown(w: World, steps: seq<Step>, valid: string -> bool, f: Field, i: nat)
    requires Init(w) && TestedLastForms(w, steps) && TrimmedForms(w, steps, valid)
    requires Run(w, steps).a.executed.Some?
    requires f in Run(w, steps).a.doc.fields && i < |Run(w, steps).a.signers| && RequiredOf(f, i)
    ensures var copy := Run(w, steps).a.executed.value; Shows(copy, f) <==> Stamping.Placeable(|copy.base|, f)
  {
    forall k | 0 <= k < |steps|
      ensures StepFills(Run(w, steps[..k]), steps[k], DrawnAsTested)
    {
      TrimmedFills(Run(w, steps[..k]), steps[k], valid);
    }
    RunTruthful(w, steps, DrawnAsTested);
    FilledByIndex(Run(w, steps).a, DrawnAsTested, f, i);
    ShownIff(Run(w, steps).a, f);
  }

  // ---- the pages that are sent -------------------------------------------------------------

  /** The frozen copy rasterises the pages that were text-edited, and no others. */
  predicate FrozenExactly(a: Agreement) {
    a.frozen.Some? ==>
      && |a.frozen.value| == |a.doc.pages|
      && forall i :: 0 <= i < |a.doc.pages| ==>
           a.frozen.value[i] == if a.doc.pages[i].edited then Pages.Raster(a.doc.pages[i]) else Pages.Vector(a.doc.pages[i])
  }

  predicate GenuinePages(steps: seq<Step>) {
    forall k :: 0 <= k < |steps| && steps[k].Do? && steps[k].act.ActPages? ==> Pages.Genuine(steps[k].act.op)
  }

  lemma DraftActInSync(a: Agreement, act: Act, now: real)
    requires a.status == Drafting && a.frozen == None && Pages.InSync(a.doc)
    requires act.ActPages? ==> Pages.Genuine(act.op)
    ensures var b := Acted(a, act, now);
            Pages.InSync(b.doc) && FrozenExactly(b) && (b.status == Drafting ==> b.frozen == None)
  {
    if act.ActPages? && Pages.Apply(a.doc, act.op).Some? {
      Pages.ApplyInSync(a.doc, act.op);
    }
    if act.ActSend? {
      Pages.FreezeRastersExactlyEditedPages(a.doc, []);
    }
  }

  /** In every run the edited-page column is in step with the document, so the freeze of
      `send` never refuses it, and a frozen copy rasterises exactly the text-edited pages. */
  lemma {:induction false} SentCopyRastersEditedPages(w: World, steps: seq<Step>)
    requires Init(w) && GenuinePages(steps)
    ensures var a := Run(w, steps).a;
            && Pages.InSync(a.doc) && Pages.Freeze(a.doc).Some? && FrozenExactly(a)
            && (a.status == Drafting ==> a.frozen == None)
  {
    if steps == [] {
      assert Pages.InSync(w.a.doc) by {
        assert Pages.EditedPositions(w.a.doc.pages) == {};
        NoPagesListed();
      }
    } else {
      var before, s := Run(w, steps[..|steps| - 1]), steps[|steps| - 1];
      SentCopyRastersEditedPages(w, steps[..|steps| - 1]);
      RunOrderly(w, steps[..|steps| - 1]);
      if before.a.status != Drafting {
        NextKept(before, s);
      } else if s.Do? {
        DraftActInSync(before.a, s.act, before.clock);
      } else {
        DraftCallsNothing(before, s);
      }
    }
    Pages.FreezeRastersExactlyEditedPages(Run(w, steps).a.doc, []);
  }

  lemma NoPagesListed()
    ensures Csv.Decode("") == {}
  {
    assert Csv.Split("") == [""];
  }

  lemma DraftCallsNothing(w: World, s: Step)
    requires Orderly(w) && w.a.status == Drafting && !s.Do?
    ensures Next(w, s).a == w.a
  {
    if s.SubmitForm? {
      SubmitKeeps(w.a, s.i, s.form, s.consent, w.clock);
    }
  }
}
