/** What lets a submission through, and that an envelope whose signers are willing can be
    completed: in parallel mode in whatever order they submit, in sequential mode in exactly
    the orders that follow the turns. */
module Progress {
  import opened Envelope
  import opened Runs
  import opened Overrun

  // Who else matters to an answer

  predicate SameAnswer(r: SubmitResult, s: SubmitResult) {
    match r
    case Recorded(_) => s.Recorded?
    case _ => s == r
  }

  /** In parallel mode the answer to a signer does not depend on the other signers. */
  lemma ParallelAnswerIgnoresOthers(a: Agreement, others: seq<Signer>, i: nat, form: Form, consent: bool, now: real)
    requires !a.sequential && |others| == |a.signers| && (i < |others| ==> others[i] == a.signers[i])
    ensures SameAnswer(Submit(a, i, form, consent, now), Submit(a.(signers := others), i, form, consent, now))
    ensures Submit(a, i, form, consent, now) != Refused(NotYourTurn)
  {
  }

  /** Sequential mode refuses, for their turn, only signers with an unsigned one before them, and
      answers everyone else as parallel mode does. */
  lemma SequentialAnswer(a: Agreement, i: nat, form: Form, consent: bool, now: real)
    requires a.sequential && i < |a.signers|
    ensures var r, s := Submit(a, i, form, consent, now), Submit(a.(sequential := false), i, form, consent, now);
            if a.signers[i].status != Signed && EarlierUnsigned(a.signers, i)
            then !r.Recorded? && (s.Recorded? ==> r == Refused(NotYourTurn))
            else SameAnswer(r, s)
  {
  }

  // Everyone submits

  /** Nothing but the turn stands between signer `i` and a recorded submission of the form. */
  predicate Willing(a: Agreement, i: nat, form: seq<Entry>) {
    && i < |a.signers| && a.signers[i].token.Some?
    && !a.signers[i].lockUnmet && !a.signers[i].withdrawn && a.signers[i].status != SignerDeclined
    && (a.signers[i].consumer ==> a.signers[i].consentAt.Some?)
    && GatePasses(a.doc.fields, i, form) && !exists e :: e in form && e.key.Junk?
  }

  predicate AllWilling(w: World, forms: seq<Form>) {
    && w.a.status == OutForSignature && !LinkExpired(w.a, w.clock)
    && |forms| == |w.a.signers| && forall i :: 0 <= i < |forms| ==> Willing(w.a, i, forms[i])
  }

  /** The order names every signer who has not signed, once. */
  predicate Remaining(signers: seq<Signer>, order: seq<nat>) {
    && (forall k :: 0 <= k < |order| ==> order[k] < |signers| && signers[order[k]].status != Signed)
    && (forall i: nat :: i < |signers| && signers[i].status != Signed ==> i in order)
    && forall j, k :: 0 <= j < k < |order| ==> order[j] != order[k]
  }

  /** The order follows the turns. */
  predicate FollowsTurns(signers: seq<Signer>, order: seq<nat>)
    requires forall k :: 0 <= k < |order| ==> order[k] < |signers|
  {
    forall j, k :: 0 <= j < k < |order| ==> Turn(signers[order[j]]) <= Turn(signers[order[k]])
  }

  /** All of the order submit their forms, each in a call of its own. */
  function Submissions(order: seq<nat>, forms: seq<Form>, p: nat): (steps: seq<Step>)
    requires forall k :: 0 <= k < |order| ==> order[k] < |forms|
    ensures |steps| == |order| && forall k :: 0 <= k < |order| ==> steps[k] == Submitting(forms, p + k, order[k])
  {
    seq(|order|, k requires 0 <= k < |order| => Submitting(forms, p + k, order[k]))
  }

  /** The step of signer `i` in call `p`. */
  function Submitting(forms: seq<Form>, p: nat, i: nat): Step
    requires i < |forms|
  {
    SubmitForm(p, i, forms[i], true)
  }

  /** Call `q` goes on to the end. */
  function LastCall(q: nat, now: real): seq<Step> {
    [Count(q), ReadRow(q), ClaimSeal(q, now)] + [FinishSeal(q)]
  }

  /** Call numbers from `p` on are free. */
  predicate Free(w: World, p: nat) {
    forall q :: q in w.procs ==> q < p
  }

  /** Signers may have signed since; everything else that a submission is tested by is as it was. */
  predicate OnlySigned(a: Agreement, b: Agreement) {
    && b.status == a.status && b.sequential == a.sequential && b.sentAt == a.sentAt && b.createdAt == a.createdAt
    && |b.signers| == |a.signers| && |b.doc.fields| == |a.doc.fields|
    && (forall i :: 0 <= i < |a.signers| ==> b.signers[i] == a.signers[i] || b.signers[i] == a.signers[i].(status := Signed))
    && forall k :: 0 <= k < |a.doc.fields| ==> b.doc.fields[k] == a.doc.fields[k].(value := b.doc.fields[k].value)
  }

  lemma StillWilling(a: Agreement, b: Agreement, i: nat, form: seq<Entry>)
    requires OnlySigned(a, b) && Willing(a, i, form)
    ensures Willing(b, i, form)
  {
    forall k | 0 <= k < |b.doc.fields| && RequiredOf(b.doc.fields[k], i)
      ensures FieldPasses(b.doc.fields[k], form)
    {
      assert RequiredOf(a.doc.fields[k], i);
    }
  }

  lemma WillingIsRecorded(a: Agreement, i: nat, form: Form, now: real)
    requires a.status == OutForSignature && !LinkExpired(a, now) && Willing(a, i, form) && a.signers[i].status != Signed
    ensures Submit(a, i, form, true, now)
         == if a.sequential && EarlierUnsigned(a.signers, i) then Refused(NotYourTurn) else Recorded(Sign(a, i, form))
  {
  }

  lemma SignOnlySigns(a: Agreement, i: nat, form: Form)
    requires i < |a.signers|
    ensures OnlySigned(a, Sign(a, i, form))
    ensures forall j :: 0 <= j < |a.signers| && j != i ==> Sign(a, i, form).signers[j] == a.signers[j]
    ensures Sign(a, i, form).signers[i].status == Signed
  {
  }

  lemma OnlySignedTransitive(a: Agreement, b: Agreement, c: Agreement)
    requires OnlySigned(a, b) && OnlySigned(b, c)
    ensures OnlySigned(a, c)
  {
  }

  /** From `v`, in which others may have signed since `w`, the submission of `i` in call `p` leads to
      `u`. */
  predicate Submits(w: World, v: World, u: World, p: nat, i: nat)
    requires i < |w.a.signers| && |v.a.signers| == |w.a.signers|
  {
    && OnlySigned(w.a, u.a) && u.clock == w.clock
    && (forall j :: 0 <= j < |w.a.signers| && j != i ==> u.a.signers[j] == v.a.signers[j])
    && (if w.a.sequential && EarlierUnsigned(v.a.signers, i)
        then u == v else u.a.signers[i].status == Signed && u.procs == v.procs[p := Counting(false)])
  }

  lemma OneSubmits(w: World, v: World, forms: seq<Form>, p: nat, i: nat)
    requires AllWilling(w, forms) && i < |forms|
    requires OnlySigned(w.a, v.a) && v.clock == w.clock && p !in v.procs && v.a.signers[i].status != Signed
    ensures Submits(w, v, Next(v, SubmitForm(p, i, forms[i], true)), p, i)
  {
    StillWilling(w.a, v.a, i, forms[i]);
    WillingIsRecorded(v.a, i, forms[i], v.clock);
    SignOnlySigns(v.a, i, forms[i]);
    OnlySignedTransitive(w.a, v.a, Sign(v.a, i, forms[i]));
  }

  /** After the first `n` submissions only those signers can have signed since. */
  predicate Reached(w: World, v: World, order: seq<nat>, p: nat, n: nat)
    requires n <= |order|
  {
    && OnlySigned(w.a, v.a) && v.clock == w.clock && Free(v, p + n)
    && (forall q :: q in v.procs && q >= p ==> v.procs[q] == Counting(false))
    && forall i: nat :: i < |w.a.signers| && i !in order[..n] ==> v.a.signers[i] == w.a.signers[i]
  }

  /** The world after the first `n` steps. */
  function After(w: World, steps: seq<Step>, n: nat): World
    requires n <= |steps|
  {
    if n == 0 then w else Next(After(w, steps, n - 1), steps[n - 1])
  }

  lemma {:induction false} AfterRun(w: World, steps: seq<Step>, n: nat)
    requires n <= |steps|
    ensures Run(w, steps[..n]) == After(w, steps, n)
  {
    if n > 0 {
      AfterRun(w, steps, n - 1);
      RunThen(w, steps[..n - 1], steps[n - 1]);
      assert steps[..n] == steps[..n - 1] + [steps[n - 1]];
    }
  }

  lemma ReachedMore(w: World, v: World, u: World, order: seq<nat>, p: nat, n: nat)
    requires 0 < n <= |order| && Remaining(w.a.signers, order) && Reached(w, v, order, p, n - 1)
    requires Submits(w, v, u, p + n - 1, order[n - 1])
    ensures Reached(w, u, order, p, n)
  {
    assert order[..n] == order[..n - 1] + [order[n - 1]];
  }

  lemma NextSubmits(w: World, v: World, order: seq<nat>, forms: seq<Form>, p: nat, n: nat)
    requires AllWilling(w, forms) && Remaining(w.a.signers, order) && n < |order|
    requires Reached(w, v, order, p, n)
    ensures Submits(w, v, Next(v, Submitting(forms, p + n, order[n])), p + n, order[n])
  {
    assert order[n] !in order[..n];
    OneSubmits(w, v, forms, p + n, order[n]);
  }

  /** The worlds from `w` on, as the order submits one after the other. */
  predicate Chain(w: World, vs: seq<World>, order: seq<nat>, p: nat)
    requires forall k :: 0 <= k < |order| ==> order[k] < |w.a.signers|
  {
    && |vs| == |order| + 1 && vs[0] == w
    && forall k :: 0 <= k < |order| && Reached(w, vs[k], order, p, k) ==> Submits(w, vs[k], vs[k + 1], p + k, order[k])
  }

  lemma {:induction false} ChainReaches(w: World, vs: seq<World>, order: seq<nat>, p: nat, n: nat)
    requires Remaining(w.a.signers, order) && Chain(w, vs, order, p) && Free(w, p) && n <= |order|
    ensures Reached(w, vs[n], order, p, n)
  {
    if n > 0 {
      ChainReaches(w, vs, order, p, n - 1);
      ReachedMore(w, vs[n - 1], vs[n], order, p, n);
    }
  }

  /** The first `n` of the order have signed, and the last of them is about to be counted. */
  predicate Signers(v: World, order: seq<nat>, p: nat, n: nat)
    requires n <= |order| && forall k :: 0 <= k < |order| ==> order[k] < |v.a.signers|
  {
    && (forall k :: 0 <= k < n ==> v.a.signers[order[k]].status == Signed)
    && (n > 0 ==> p + n - 1 in v.procs && v.procs[p + n - 1] == Counting(false))
  }

  lemma SignersMore(w: World, v: World, u: World, order: seq<nat>, p: nat, n: nat)
    requires 0 < n <= |order| && Remaining(w.a.signers, order) && |v.a.signers| == |w.a.signers|
    requires Signers(v, order, p, n - 1) && !(w.a.sequential && EarlierUnsigned(v.a.signers, order[n - 1]))
    requires Submits(w, v, u, p + n - 1, order[n - 1])
    ensures Signers(u, order, p, n)
  {
  }

  /** In an order that follows the turns, everyone's submission is recorded. */
  lemma {:induction false} FollowersSign(w: World, vs: seq<World>, order: seq<nat>, p: nat, n: nat)
    requires Remaining(w.a.signers, order) && Chain(w, vs, order, p) && Free(w, p) && n <= |order|
    requires w.a.sequential ==> FollowsTurns(w.a.signers, order)
    ensures Reached(w, vs[n], order, p, n) && Signers(vs[n], order, p, n)
  {
    ChainReaches(w, vs, order, p, n);
    if n > 0 {
      FollowersSign(w, vs, order, p, n - 1);
      if w.a.sequential {
        EarlierHaveSigned(w, vs[n - 1], order, p, n);
      }
      SignersMore(w, vs[n - 1], vs[n], order, p, n);
    }
  }

  lemma EarlierHaveSigned(w: World, v: World, order: seq<nat>, p: nat, n: nat)
    requires 0 < n <= |order| && Remaining(w.a.signers, order) && Reached(w, v, order, p, n - 1)
    requires FollowsTurns(w.a.signers, order) && forall k :: 0 <= k < n - 1 ==> v.a.signers[order[k]].status == Signed
    ensures !EarlierUnsigned(v.a.signers, order[n - 1])
  {
    forall j: nat | j < |v.a.signers| && Turn(v.a.signers[j]) < Turn(v.a.signers[order[n - 1]])
      ensures v.a.signers[j].status == Signed
    {
      if w.a.signers[j].status != Signed {
        var k :| 0 <= k < |order| && order[k] == j;
        assert k < n - 1;
      }
    }
  }

  lemma OvertakerIsRefused(w: World, vs: seq<World>, order: seq<nat>, p: nat, j: nat, k: nat)
    requires Remaining(w.a.signers, order) && Chain(w, vs, order, p) && Free(w, p) && j < k < |order|
    requires w.a.sequential && Turn(w.a.signers[order[k]]) < Turn(w.a.signers[order[j]])
    ensures vs[j + 1].a.signers == vs[j].a.signers && |vs[j].a.signers| == |w.a.signers|
    ensures vs[j].a.signers[order[j]].status != Signed
  {
    var v := vs[j];
    ChainReaches(w, vs, order, p, j);
    assert order[k] !in order[..j] && order[j] !in order[..j];
    assert v.a.signers[order[k]] == w.a.signers[order[k]];
    assert EarlierUnsigned(v.a.signers, order[j]);
    assert Submits(w, vs[j], vs[j + 1], p + j, order[j]);
  }

  /** A signer who submits before one of an earlier turn is refused, and has not signed at the end. */
  lemma {:induction false} OvertakerStaysUnsigned(w: World, vs: seq<World>, order: seq<nat>, p: nat, j: nat, k: nat, n: nat)
    requires Remaining(w.a.signers, order) && Chain(w, vs, order, p) && Free(w, p) && j < n <= |order|
    requires w.a.sequential && j < k < |order| && Turn(w.a.signers[order[k]]) < Turn(w.a.signers[order[j]])
    ensures order[j] < |vs[n].a.signers| && vs[n].a.signers[order[j]].status != Signed
  {
    if j == n - 1 {
      OvertakerIsRefused(w, vs, order, p, j, k);
    } else {
      OvertakerStaysUnsigned(w, vs, order, p, j, k, n - 1);
      ChainReaches(w, vs, order, p, n - 1);
    }
  }

  // The last call

  /** Call `q` counts, and if it goes on to `finalize` runs it to the end. */
  function CallEnd(v: World, q: nat): World {
    Next(Next(Next(Next(v, Count(q)), ReadRow(q)), ClaimSeal(q, v.clock)), FinishSeal(q))
  }

  lemma CallCompletesIff(v: World, q: nat)
    requires v.a.status == OutForSignature && !AnyLockUnmet(v.a.signers)
    requires q in v.procs ==> v.procs[q] == Counting(false)
    ensures CallEnd(v, q).a.status == Completed <==> q in v.procs && AllSigned(v.a.signers)
  {
    if q in v.procs && AllSigned(v.a.signers) {
      assert Next(v, Count(q)) == At(v, q, Called);
      assert Next(At(v, q, Called), ReadRow(q)) == At(At(v, q, Called), q, HasRead(v.a));
    }
  }

  function Worlds(w: World, steps: seq<Step>): (vs: seq<World>)
    ensures |vs| == |steps| + 1 && forall k :: 0 <= k <= |steps| ==> vs[k] == After(w, steps, k)
  {
    seq(|steps| + 1, k requires 0 <= k <= |steps| => After(w, steps, k))
  }

  lemma WorldsChain(w: World, order: seq<nat>, forms: seq<Form>, p: nat)
    requires AllWilling(w, forms) && Remaining(w.a.signers, order)
    ensures Chain(w, Worlds(w, Submissions(order, forms, p)), order, p)
  {
    var steps := Submissions(order, forms, p);
    var vs := Worlds(w, steps);
    forall k | 0 <= k < |order| && Reached(w, vs[k], order, p, k)
      ensures Submits(w, vs[k], vs[k + 1], p + k, order[k])
    {
      NextSubmits(w, vs[k], order, forms, p, k);
      assert vs[k + 1] == Next(vs[k], steps[k]);
    }
  }

  lemma FourMore(w: World, before: seq<Step>, a: Step, b: Step, c: Step, d: Step)
    ensures Run(w, before + [a, b, c] + [d]) == Next(Next(Next(Next(Run(w, before), a), b), c), d)
  {
    RunThenThree(w, before, a, b, c);
    RunThen(w, before + [a, b, c], d);
  }

  /** The last call is on its way, with everyone signed. */
  predicate AllIn(v: World, q: nat) {
    q in v.procs && AllSigned(v.a.signers)
  }

  predicate AtRest(v: World, q: nat) {
    v.a.status == OutForSignature && !AnyLockUnmet(v.a.signers) && (q in v.procs ==> v.procs[q] == Counting(false))
  }

  lemma LastCallCompletesIff(w: World, before: seq<Step>, v: World, q: nat)
    requires v == Run(w, before) && AtRest(v, q)
    ensures Run(w, before + LastCall(q, v.clock)).a.status == Completed <==> AllIn(v, q)
  {
    FourMore(w, before, Count(q), ReadRow(q), ClaimSeal(q, v.clock), FinishSeal(q));
    assert before + LastCall(q, v.clock) == before + [Count(q), ReadRow(q), ClaimSeal(q, v.clock)] + [FinishSeal(q)];
    CallCompletesIff(v, q);
  }

  /** Where the submissions lead: the last call is on its way with everyone signed, if the order
      suits the mode, and otherwise someone has not signed. */
  lemma ChainEnds(w: World, vs: seq<World>, order: seq<nat>, p: nat)
    requires Remaining(w.a.signers, order) && Chain(w, vs, order, p) && Free(w, p) && order != []
    requires w.a.status == OutForSignature && forall i :: 0 <= i < |w.a.signers| ==> !w.a.signers[i].lockUnmet
    ensures var v, q := vs[|order|], p + |order| - 1;
            && v.a.status == OutForSignature && !AnyLockUnmet(v.a.signers) && v.clock == w.clock
            && (q in v.procs ==> v.procs[q] == Counting(false))
            && (q in v.procs && AllSigned(v.a.signers) <==> !w.a.sequential || FollowsTurns(w.a.signers, order))
  {
    ChainReaches(w, vs, order, p, |order|);
    if !w.a.sequential || FollowsTurns(w.a.signers, order) {
      FollowersComplete(w, vs, order, p);
    } else {
      OvertakenIdles(w, vs, order, p);
    }
  }

  lemma FollowersComplete(w: World, vs: seq<World>, order: seq<nat>, p: nat)
    requires Remaining(w.a.signers, order) && Chain(w, vs, order, p) && Free(w, p) && order != []
    requires w.a.sequential ==> FollowsTurns(w.a.signers, order)
    ensures AllSigned(vs[|order|].a.signers) && p + |order| - 1 in vs[|order|].procs
  {
    var v := vs[|order|];
    FollowersSign(w, vs, order, p, |order|);
    assert order[..|order|] == order;
    forall i: nat | i < |v.a.signers|
      ensures v.a.signers[i].status == Signed
    {
      assert i in order || v.a.signers[i] == w.a.signers[i];
    }
  }

  lemma OvertakenIdles(w: World, vs: seq<World>, order: seq<nat>, p: nat)
    requires Remaining(w.a.signers, order) && Chain(w, vs, order, p) && Free(w, p) && order != []
    requires w.a.sequential && !FollowsTurns(w.a.signers, order)
    ensures !AllSigned(vs[|order|].a.signers)
  {
    var j, k :| 0 <= j < k < |order| && Turn(w.a.signers[order[k]]) < Turn(w.a.signers[order[j]]);
    OvertakerStaysUnsigned(w, vs, order, p, j, k, |order|);
  }

  lemma SubmissionsChain(w: World, order: seq<nat>, forms: seq<Form>, p: nat) returns (vs: seq<World>)
    requires AllWilling(w, forms) && Remaining(w.a.signers, order)
    ensures Chain(w, vs, order, p) && vs[|order|] == Run(w, Submissions(order, forms, p))
  {
    var steps := Submissions(order, forms, p);
    vs := Worlds(w, steps);
    WorldsChain(w, order, forms, p);
    AfterRun(w, steps, |steps|);
    assert steps[..|steps|] == steps;
  }

  lemma SubmissionsEnd(w: World, order: seq<nat>, forms: seq<Form>, p: nat) returns (v: World)
    requires AllWilling(w, forms) && Remaining(w.a.signers, order) && order != [] && Free(w, p)
    ensures v == Run(w, Submissions(order, forms, p)) && v.clock == w.clock && AtRest(v, p + |order| - 1)
    ensures AllIn(v, p + |order| - 1) <==> !w.a.sequential || FollowsTurns(w.a.signers, order)
  {
    var vs := SubmissionsChain(w, order, forms, p);
    forall i | 0 <= i < |w.a.signers|
      ensures !w.a.signers[i].lockUnmet
    {
      assert Willing(w.a, i, forms[i]);
    }
    ChainEnds(w, vs, order, p);
    v := vs[|order|];
  }

  /** From every state that is out for signature, with live links and willing signers, and for
      every order in which those who have not signed submit forms that pass: that completes the
      envelope in parallel mode, and in sequential mode if and only if the order follows the
      turns. */
  lemma EveryoneSubmitsCompletesIff(w: World, order: seq<nat>, forms: seq<Form>, p: nat)
    requires AllWilling(w, forms) && Remaining(w.a.signers, order) && order != [] && Free(w, p)
    ensures Run(w, Submissions(order, forms, p) + LastCall(p + |order| - 1, w.clock)).a.status == Completed
       <==> !w.a.sequential || FollowsTurns(w.a.signers, order)
  {
    var v := SubmissionsEnd(w, order, forms, p);
    LastCallCompletesIff(w, Submissions(order, forms, p), v, p + |order| - 1);
  }
}
