/** What each signer of an envelope may do, over every run: who is let through to sign, who may
    look, what a withdrawal, a decline or a void brings to an end, and that links are personal. */
module SignerRights {
  import opened Basics
  import opened Envelope
  import opened Runs
  import opened Lease
  import Healing
  import Progress
  import Sealed

  // Signing

  /** The envelope can take a signature: it has not been ended, and it is completed or its links
      are alive. */
  predicate TakesSignatures(a: Agreement, now: real) {
    && a.status != Voided && a.status != Cancelled && a.status != Declined && a.status != Expired
    && (a.status == Completed || !LinkExpired(a, now))
  }

  /** A submission is recorded exactly if the signer agrees, is willing and able, has not signed,
      the envelope takes signatures and, in sequential mode, nobody of an earlier turn is
      missing. */
  lemma RecordedIff(a: Agreement, i: nat, form: Form, consent: bool, now: real)
    ensures Submit(a, i, form, consent, now).Recorded? <==>
              && consent && Progress.Willing(a, i, form) && a.signers[i].status != Signed
              && TakesSignatures(a, now)
              && (a.sequential ==> forall j :: 0 <= j < |a.signers| && Turn(a.signers[j]) < Turn(a.signers[i]) ==> a.signers[j].status == Signed)
  {
  }

  predicate ConsumersConsented(a: Agreement) {
    forall i :: 0 <= i < |a.signers| && a.signers[i].status == Signed && a.signers[i].consumer ==> a.signers[i].consentAt.Some?
  }

  lemma PageActKeepsConsents(a: Agreement, i: nat, token: nat, now: real)
    requires ConsumersConsented(a)
    ensures ConsumersConsented(OrElse(SelfSign(a, i, token, now), a))
    ensures ConsumersConsented(OrElse(View(a, i, now), a))
    ensures ConsumersConsented(OrElse(RecordConsent(a, i, now), a))
  {
  }

  lemma EndActKeepsConsents(a: Agreement, i: nat, unmet: bool)
    requires ConsumersConsented(a)
    ensures ConsumersConsented(SetLock(a, i, unmet))
    ensures ConsumersConsented(OrElse(Withdraw(a, i), a))
    ensures ConsumersConsented(OrElse(Decline(a, i), a))
  {
  }

  lemma ActKeepsConsents(a: Agreement, act: Act, now: real)
    requires ConsumersConsented(a)
    ensures ConsumersConsented(Acted(a, act, now))
  {
    if act.ActSelfSign? || act.ActView? || act.ActConsent? || act.ActLock? || act.ActWithdraw? || act.ActDecline? {
      PageActKeepsConsents(a, act.i, if act.ActSelfSign? then act.token else 0, now);
      EndActKeepsConsents(a, act.i, act.ActLock? && act.unmet);
    }
    match act
    case ActSigners(signers) =>
      assert (forall s :: s in signers ==> FreshSigner(s)) ==> forall i :: 0 <= i < |signers| ==> FreshSigner(signers[i]);
    case _ =>
  }

  lemma NextKeepsConsents(w: World, s: Step)
    requires ConsumersConsented(w.a)
    ensures ConsumersConsented(Next(w, s).a)
  {
    match s
    case Do(act) => ActKeepsConsents(w.a, act, w.clock);
    case SubmitForm(p, i, form, consent) =>
      if Submit(w.a, i, form, consent, w.clock).Recorded? { RecordedIff(w.a, i, form, consent, w.clock); }
    case _ =>
  }

  /** In every run, a consumer who has signed has consented. */
  lemma {:induction false} NoConsumerSignsWithoutConsent(w: World, steps: seq<Step>)
    requires Init(w)
    ensures ConsumersConsented(Run(w, steps).a)
  {
    if steps != [] {
      NoConsumerSignsWithoutConsent(w, steps[..|steps| - 1]);
      NextKeepsConsents(Run(w, steps[..|steps| - 1]), steps[|steps| - 1]);
    }
  }

  // Looking

  predicate TakenBack(a: Agreement) {
    a.status == Voided || a.status == Cancelled || a.status == Declined
  }

  /** The page is shown to a link's holder unless the envelope was voided, cancelled or declined,
      or the holder has not signed and it is too late to. */
  lemma ShownIff(a: Agreement, i: nat, now: real)
    ensures View(a, i, now).Some? <==>
              && i < |a.signers| && a.signers[i].token.Some? && !TakenBack(a)
              && (a.signers[i].status == Signed || a.status == Completed || (a.status != Expired && !LinkExpired(a, now)))
  {
  }

  /** A look of a signer who has been sent the envelope is logged each time, and the first is
      noted; any other leaves no trace. */
  lemma LookIsLogged(a: Agreement, i: nat, now: real)
    requires View(a, i, now).Some?
    ensures var b, s := View(a, i, now).value, a.signers[i];
            if s.status == Sent || s.status == Viewed
            then b.events == a.events + [By(EvViewed, i)] && b.signers[i].viewed && (s.viewed ==> b.signers == a.signers)
            else b == a
  {
  }

  /** Whoever can sign can look, at the same time. */
  lemma SignersCanLook(a: Agreement, i: nat, form: Form, now: real)
    requires Submit(a, i, form, true, now).Recorded?
    ensures View(a, i, now).Some?
  {
    RecordedIff(a, i, form, true, now);
    ShownIff(a, i, now);
  }

  /** Signer `i` once signed: the row still says so, or the envelope has ended otherwise. */
  predicate HasSigned(a: Agreement, i: nat) {
    && i < |a.signers| && a.signers[i].token.Some? && a.status != Drafting
    && (a.signers[i].status == Signed || TakenBack(a) || a.status == Completed)
  }

  lemma PageActKeepsSigned(a: Agreement, j: nat, token: nat, now: real, i: nat)
    requires HasSigned(a, i)
    ensures HasSigned(OrElse(SelfSign(a, j, token, now), a), i)
    ensures HasSigned(OrElse(View(a, j, now), a), i)
    ensures HasSigned(OrElse(RecordConsent(a, j, now), a), i)
  {
  }

  lemma EndActKeepsSigned(a: Agreement, j: nat, unmet: bool, i: nat)
    requires HasSigned(a, i)
    ensures HasSigned(SetLock(a, j, unmet), i)
    ensures HasSigned(OrElse(Withdraw(a, j), a), i)
    ensures HasSigned(OrElse(Decline(a, j), a), i)
  {
  }

  lemma ActKeepsSigned(a: Agreement, act: Act, now: real, i: nat)
    requires HasSigned(a, i)
    ensures HasSigned(Acted(a, act, now), i)
  {
    if act.ActSelfSign? || act.ActView? || act.ActConsent? || act.ActLock? || act.ActWithdraw? || act.ActDecline? {
      PageActKeepsSigned(a, act.i, if act.ActSelfSign? then act.token else 0, now, i);
      EndActKeepsSigned(a, act.i, act.ActLock? && act.unmet, i);
    }
  }

  lemma NextKeepsSigned(w: World, s: Step, i: nat)
    requires Orderly(w) && HasSigned(w.a, i)
    ensures HasSigned(Next(w, s).a, i)
  {
    if s.Do? {
      ActKeepsSigned(w.a, s.act, w.clock, i);
    }
  }

  lemma {:induction false} StaysSigned(w: World, steps: seq<Step>, i: nat)
    requires Orderly(w) && HasSigned(w.a, i)
    ensures HasSigned(Run(w, steps).a, i)
  {
    if steps != [] {
      StaysSigned(w, steps[..|steps| - 1], i);
      OrderlyFrom(w, steps[..|steps| - 1]);
      NextKeepsSigned(Run(w, steps[..|steps| - 1]), steps[|steps| - 1], i);
    }
  }

  /** Whoever has signed is shown the page in every continuation and at any time, however old
      the link, until the envelope is voided, cancelled or declined. */
  lemma SignedMayAlwaysLook(w0: World, run: seq<Step>, steps: seq<Step>, i: nat, now: real)
    requires Init(w0) && i < |Run(w0, run).a.signers| && Run(w0, run).a.signers[i].status == Signed
    ensures var a := Run(Run(w0, run), steps).a; View(a, i, now).Some? <==> !TakenBack(a)
  {
    RunOrderly(w0, run);
    Healing.RunRepeatable(w0, run);
    StaysSigned(Run(w0, run), steps, i);
    ShownIff(Run(Run(w0, run), steps).a, i, now);
  }

  // Ending

  /** A link's holder past the lock may withdraw at any time, and decline until having signed or
      the envelope is over; the sender may void at any time. Each ends the signing, but for a
      withdrawal from an envelope that is over. */
  lemma EndingsTakeEffect(a: Agreement, i: nat)
    ensures Void(a).status == Voided
    ensures Withdraw(a, i).Some? <==> i < |a.signers| && a.signers[i].token.Some? && !a.signers[i].lockUnmet
    ensures Withdraw(a, i).Some? ==> Withdraw(a, i).value.signers[i].withdrawn
    ensures Withdraw(a, i).Some? && !a.signers[i].withdrawn ==>
              Withdraw(a, i).value.status == if a.status == Completed || a.status == Voided || a.status == Cancelled then a.status else Declined
    ensures Decline(a, i).Some? <==>
              && i < |a.signers| && a.signers[i].token.Some? && !a.signers[i].lockUnmet && a.signers[i].status != Signed
              && a.status != Completed && a.status != Voided && a.status != Cancelled
    ensures Decline(a, i).Some? ==> Decline(a, i).value.status == Declined
  {
  }

  /** Once an envelope has ended, in whatever way, no submission is recorded and no seal is
      claimed in any continuation. */
  lemma NothingIsSignedOrClaimedAfterwards(w0: World, run: seq<Step>, steps: seq<Step>, i: nat, form: Form, consent: bool, now: real)
    requires Init(w0) && Terminal(Run(w0, run).a.status)
    ensures var a := Run(w0, run + steps).a;
            Terminal(a.status) && !Submit(a, i, form, consent, now).Recorded? && Claim(a, now) == None
  {
    RunAppend(w0, run, steps);
    RunOrderly(w0, run);
    TerminalIsForever(Run(w0, run), steps);
    Sealed.RunTruthful(w0, run + steps, Sealed.AnyField);
  }

  // Links

  predicate NoSharedToken(signers: seq<Signer>) {
    forall i, j :: 0 <= i < j < |signers| && signers[i].token.Some? ==> signers[i].token != signers[j].token
  }

  /** Tokens that are minted have not been minted before, as far as the envelope can tell. */
  predicate MintsFresh(w: World, s: Step) {
    s.Do? ==>
      match s.act
      case ActSend(tokens) => forall i, j :: 0 <= i < j < |tokens| ==> tokens[i] != tokens[j]
      case ActSelfSign(_, token) => forall i :: 0 <= i < |w.a.signers| ==> w.a.signers[i].token != Some(token)
      case _ => true
  }

  ghost predicate RunMintsFresh(w: World, steps: seq<Step>) {
    forall k :: 0 <= k < |steps| ==> MintsFresh(Run(w, steps[..k]), steps[k])
  }

  lemma LinkActKeepsTokens(a: Agreement, i: nat, token: nat, now: real)
    requires NoSharedToken(a.signers)
    ensures NoSharedToken(OrElse(View(a, i, now), a).signers)
    ensures (forall k :: 0 <= k < |a.signers| ==> a.signers[k].token != Some(token)) ==>
              NoSharedToken(OrElse(SelfSign(a, i, token, now), a).signers)
  {
  }

  lemma SendKeepsTokens(a: Agreement, tokens: seq<nat>, now: real)
    requires |tokens| == |a.signers| && Send(a, tokens, now).Some?
    requires forall i, j :: 0 <= i < j < |tokens| ==> tokens[i] != tokens[j]
    ensures NoSharedToken(Send(a, tokens, now).value.signers)
  {
  }

  lemma SameTokens(signers: seq<Signer>, after: seq<Signer>)
    requires NoSharedToken(signers) && |after| == |signers|
    requires forall i :: 0 <= i < |signers| ==> after[i].token == signers[i].token
    ensures NoSharedToken(after)
  {
  }

  lemma ActKeepsTokens(w: World, act: Act)
    requires NoSharedToken(w.a.signers) && MintsFresh(w, Do(act))
    ensures NoSharedToken(Acted(w.a, act, w.clock).signers)
  {
    match act
    case ActSend(tokens) =>
      if |tokens| == |w.a.signers| && Send(w.a, tokens, w.clock).Some? { SendKeepsTokens(w.a, tokens, w.clock); }
    case ActSelfSign(i, token) => LinkActKeepsTokens(w.a, i, token, w.clock);
    case ActView(i) => LinkActKeepsTokens(w.a, i, 0, w.clock);
    case ActSigners(signers) =>
      assert (forall x :: x in signers ==> FreshSigner(x)) ==> forall i :: 0 <= i < |signers| ==> FreshSigner(signers[i]);
    case _ => SameTokens(w.a.signers, Acted(w.a, act, w.clock).signers);
  }

  lemma NextKeepsTokens(w: World, s: Step)
    requires NoSharedToken(w.a.signers) && MintsFresh(w, s)
    ensures NoSharedToken(Next(w, s).a.signers)
  {
    if s.Do? {
      ActKeepsTokens(w, s.act);
    } else {
      SameTokens(w.a.signers, Next(w, s).a.signers);
    }
  }

  /** In every run in which tokens are minted fresh, no two signers share a link. */
  lemma {:induction false} LinksArePersonal(w: World, steps: seq<Step>)
    requires Init(w) && RunMintsFresh(w, steps)
    ensures NoSharedToken(Run(w, steps).a.signers)
  {
    if steps != [] {
      var prefix := steps[..|steps| - 1];
      forall k | 0 <= k < |prefix|
        ensures MintsFresh(Run(w, prefix[..k]), prefix[k])
      {
        assert prefix[..k] == steps[..k];
      }
      LinksArePersonal(w, prefix);
      NextKeepsTokens(Run(w, prefix), steps[|steps| - 1]);
    }
  }
}
