/** The audit trail tells the whole story: replaying an envelope's events in insertion order
    gives back its stored status and every signer's status. */
module Replay {
  import opened Basics
  import opened Records
  import opened Envelope
  import opened Runs
  import opened Lease

  /** The status a reader of the audit trail sees: a seal in progress leaves no event. */
  function Visible(s: Status): Status {
    if s == Sealing then OutForSignature else s
  }

  function StatusAfter(s: Status, e: Event): Status {
    match e.kind
    case EvSent => OutForSignature
    case EvSelfSign => if s == Drafting then OutForSignature else s
    case EvWithdrawn => if s == Completed || s == Voided || s == Cancelled then s else Declined
    case EvDeclined => Declined
    case EvExpired => Expired
    case EvCompleted => Completed
    case EvVoided => Voided
    case _ => s
  }

  function SignerAfter(envelope: Status, s: SignerStatus, e: Event): SignerStatus {
    match e.kind
    case EvSent => Sent
    case EvViewed => Viewed
    case EvSigned => Signed
    case EvWithdrawn => if envelope == Completed then s else SignerDeclined
    case EvDeclined => SignerDeclined
    case _ => s
  }

  function ReplayStatus(events: seq<Event>): Status {
    if events == [] then Drafting
    else StatusAfter(ReplayStatus(events[..|events| - 1]), events[|events| - 1])
  }

  function ReplaySigner(events: seq<Event>, i: nat): SignerStatus {
    if events == [] then Pending
    else
      var before, e := events[..|events| - 1], events[|events| - 1];
      if e.signer == Some(i) then SignerAfter(ReplayStatus(before), ReplaySigner(before, i), e)
      else ReplaySigner(before, i)
  }

  lemma ReplayOne(events: seq<Event>, e: Event)
    ensures ReplayStatus(events + [e]) == StatusAfter(ReplayStatus(events), e)
    ensures forall i: nat :: ReplaySigner(events + [e], i) ==
              if e.signer == Some(i) then SignerAfter(ReplayStatus(events), ReplaySigner(events, i), e)
              else ReplaySigner(events, i)
  {
    assert (events + [e])[..|events|] == events;
  }

  /** Events that record something other than a change of status. */
  predicate Neutral(e: Event) {
    e.kind in {EvEdited, EvAuthenticated, EvFrozen, EvEmailed, EvConsent, EvFieldSigned, EvAdopted, EvSealed, EvChallenge}
  }

  predicate AllNeutral(events: seq<Event>) {
    forall k :: 0 <= k < |events| ==> Neutral(events[k])
  }

  lemma {:induction false} ReplayNeutral(events: seq<Event>, more: seq<Event>)
    requires AllNeutral(more)
    ensures ReplayStatus(events + more) == ReplayStatus(events)
    ensures forall i: nat :: ReplaySigner(events + more, i) == ReplaySigner(events, i)
  {
    if more == [] {
      assert events + more == events;
    } else {
      var before, e := more[..|more| - 1], more[|more| - 1];
      ReplayNeutral(events, before);
      ReplayOne(events + before, e);
      assert events + more == events + before + [e];
      assert Neutral(e);
    }
  }

  lemma {:induction false} FieldEventsNeutral(fields: seq<Field>, ids: seq<int>, form: seq<Entry>, i: nat, adopted: set<string>)
    ensures AllNeutral(FieldEvents(fields, ids, form, i, adopted))
    decreases |ids|
  {
    if ids != [] {
      var v := LastNamed(form, ids[0]);
      FieldEventsNeutral(fields, ids[1..], form, i, adopted);
      if v.Some? {
        FieldEventsNeutral(fields, ids[1..], form, i, adopted + {v.value.text});
      }
    }
  }

  lemma {:induction false} ReplaySent(events: seq<Event>, n: nat)
    ensures n > 0 ==> ReplayStatus(events + SentEvents(n)) == OutForSignature
    ensures n == 0 ==> ReplayStatus(events + SentEvents(n)) == ReplayStatus(events)
    ensures forall i: nat :: ReplaySigner(events + SentEvents(n), i) == if i < n then Sent else ReplaySigner(events, i)
  {
    if n == 0 {
      assert events + SentEvents(0) == events;
    } else {
      ReplaySent(events, n - 1);
      var before := events + SentEvents(n - 1);
      ReplayOne(before, By(EvSent, n - 1));
      ReplayOne(before + [By(EvSent, n - 1)], By(EvAuthenticated, n - 1));
      assert events + SentEvents(n) == before + [By(EvSent, n - 1)] + [By(EvAuthenticated, n - 1)];
    }
  }

  predicate Unseen(a: Agreement) {
    forall i :: 0 <= i < |a.signers| ==> a.signers[i].token.None? && !a.signers[i].viewed
  }

  /** The stored row is what its own audit trail says. */
  ghost predicate Faithful(a: Agreement) {
    && ReplayStatus(a.events) == Visible(a.status)
    && (forall i :: 0 <= i < |a.signers| ==> a.signers[i].status == ReplaySigner(a.events, i))
    && (forall i :: 0 <= i < |a.signers| && a.signers[i].status == Sent ==> !a.signers[i].viewed)
    && (a.status == Drafting ==> Unseen(a) && forall i: nat :: ReplaySigner(a.events, i) == Pending)
  }

  lemma SendFaithful(a: Agreement, tokens: seq<nat>, now: real)
    requires Faithful(a) && |tokens| == |a.signers| && Send(a, tokens, now).Some?
    ensures Faithful(Send(a, tokens, now).value)
  {
    var n := |a.signers|;
    ReplaySent(a.events, n);
    ReplayOne(a.events + SentEvents(n), Of(EvFrozen));
    assert a.events + (SentEvents(n) + [Of(EvFrozen)]) == a.events + SentEvents(n) + [Of(EvFrozen)];
  }

  lemma DraftActFaithful(a: Agreement, act: Act, now: real)
    requires Faithful(a)
    requires act.ActSigners? || act.ActFields? || act.ActOrder? || act.ActPages?
    ensures Faithful(Acted(a, act, now))
  {
    if act.ActPages? {
      ReplayOne(a.events, Of(EvEdited));
    } else if act.ActSigners? {
      SignersFaithful(a, act.signers);
    }
  }

  lemma SignersFaithful(a: Agreement, signers: seq<Signer>)
    requires Faithful(a)
    ensures Faithful(SetSigners(a, signers))
  {
    if forall s :: s in signers ==> FreshSigner(s) {
      assert forall i :: 0 <= i < |signers| ==> FreshSigner(signers[i]);
    }
  }

  /** One signer's row and the envelope's status change, and one event says so. */
  lemma LoggedChangeFaithful(a: Agreement, i: nat, s: Signer, status: Status, e: Event)
    requires Faithful(a) && i < |a.signers| && e.signer == Some(i)
    requires Visible(status) == StatusAfter(Visible(a.status), e)
    requires s.status == SignerAfter(Visible(a.status), a.signers[i].status, e)
    requires s.status == Sent ==> !s.viewed
    requires status == Drafting ==> a.status == Drafting && Neutral(e) && s.token.None? && !s.viewed
    ensures Faithful(Log(SetSigner(a, i, s).(status := status), [e]))
  {
    ReplayOne(a.events, e);
  }

  lemma EnvelopeChangeFaithful(a: Agreement, status: Status, e: Event)
    requires Faithful(a) && e.signer == None && status != Drafting
    requires Visible(status) == StatusAfter(Visible(a.status), e)
    ensures Faithful(Log(a.(status := status), [e]))
  {
    ReplayOne(a.events, e);
  }

  lemma ViewFaithful(a: Agreement, i: nat, now: real)
    requires Faithful(a) && View(a, i, now).Some?
    ensures Faithful(View(a, i, now).value)
  {
    var s := a.signers[i];
    if s.status == Sent || s.status == Viewed {
      var shown := if s.viewed then s else s.(status := Viewed, viewed := true);
      LoggedChangeFaithful(a, i, shown, a.status, By(EvViewed, i));
      assert s.viewed ==> SetSigner(a, i, shown) == a;
    }
  }

  lemma SelfSignFaithful(a: Agreement, i: nat, token: nat, now: real)
    requires Faithful(a) && SelfSign(a, i, token, now).Some?
    ensures Faithful(SelfSign(a, i, token, now).value)
  {
    var s := a.signers[i].(token := Some(if a.signers[i].token.Some? then a.signers[i].token.value else token));
    LoggedChangeFaithful(a, i, s, if a.status == Drafting then OutForSignature else a.status, By(EvSelfSign, i));
  }

  lemma NoteFaithful(a: Agreement, i: nat, s: Signer, kind: EventKind)
    requires Faithful(a) && i < |a.signers| && Neutral(By(kind, i))
    requires s.status == a.signers[i].status && s.token == a.signers[i].token && s.viewed == a.signers[i].viewed
    ensures Faithful(Log(SetSigner(a, i, s), [By(kind, i)]))
  {
    LoggedChangeFaithful(a, i, s, a.status, By(kind, i));
  }

  lemma WithdrawFaithful(a: Agreement, i: nat)
    requires Faithful(a) && Withdraw(a, i).Some?
    ensures Faithful(Withdraw(a, i).value)
  {
    var s := a.signers[i].(withdrawn := true);
    if !a.signers[i].withdrawn {
      LoggedChangeFaithful(a, i, if a.status == Completed then s else s.(status := SignerDeclined),
        if a.status == Completed || a.status == Voided || a.status == Cancelled then a.status else Declined,
        By(EvWithdrawn, i));
    }
  }

  lemma DeclineFaithful(a: Agreement, i: nat)
    requires Faithful(a) && Decline(a, i).Some?
    ensures Faithful(Decline(a, i).value)
  {
    LoggedChangeFaithful(a, i, a.signers[i].(status := SignerDeclined), Declined, By(EvDeclined, i));
  }

  lemma ActFaithful(a: Agreement, act: Act, now: real)
    requires Faithful(a)
    ensures Faithful(Acted(a, act, now))
  {
    match act {
      case ActSend(tokens) =>
        if |tokens| == |a.signers| && Send(a, tokens, now).Some? {
          SendFaithful(a, tokens, now);
        }
      case ActSelfSign(i, token) =>
        if SelfSign(a, i, token, now).Some? {
          SelfSignFaithful(a, i, token, now);
        }
      case ActView(i) =>
        if View(a, i, now).Some? {
          ViewFaithful(a, i, now);
        }
      case ActConsent(i) =>
        if i < |a.signers| {
          NoteFaithful(a, i, a.signers[i].(consentAt := Some(now)), EvConsent);
        }
      case ActLock(i, unmet) =>
        if i < |a.signers| {
          NoteFaithful(a, i, a.signers[i].(lockUnmet := unmet), EvChallenge);
        }
      case ActWithdraw(i) =>
        if Withdraw(a, i).Some? {
          WithdrawFaithful(a, i);
        }
      case ActDecline(i) =>
        if Decline(a, i).Some? {
          DeclineFaithful(a, i);
        }
      case ActVoid => EnvelopeChangeFaithful(a, Voided, Of(EvVoided));
      case ActSweep => EnvelopeChangeFaithful(a, Expired, Of(EvExpired));
      case _ => DraftActFaithful(a, act, now);
    }
  }

  lemma SigningReplays(events: seq<Event>, more: seq<Event>, i: nat)
    requires AllNeutral(more)
    ensures ReplayStatus(events + (more + [By(EvSigned, i)])) == ReplayStatus(events)
    ensures forall j: nat :: ReplaySigner(events + (more + [By(EvSigned, i)]), j) ==
              if j == i then Signed else ReplaySigner(events, j)
  {
    ReplayNeutral(events, more);
    ReplayOne(events + more, By(EvSigned, i));
    assert events + (more + [By(EvSigned, i)]) == events + more + [By(EvSigned, i)];
  }

  lemma SignFaithful(a: Agreement, i: nat, form: Form)
    requires Faithful(a) && i < |a.signers| && a.status != Drafting
    ensures Faithful(Sign(a, i, form))
  {
    var more := FieldEvents(a.doc.fields, NamedIds(form), form, i, {});
    FieldEventsNeutral(a.doc.fields, NamedIds(form), form, i, {});
    SigningReplays(a.events, more, i);
    assert Sign(a, i, form).signers == a.signers[i := a.signers[i].(status := Signed)];
  }

  lemma CompleteFaithful(a: Agreement, copy: Executed)
    requires Faithful(a) && a.status != Drafting
    ensures Faithful(Complete(a, copy))
  {
    ReplayOne(a.events, Of(EvSealed));
    ReplayOne(a.events + [Of(EvSealed)], Of(EvCompleted));
    assert a.events + [Of(EvSealed), Of(EvCompleted)] == a.events + [Of(EvSealed)] + [Of(EvCompleted)];
  }

  lemma NextKeepsFaithful(w: World, s: Step)
    requires Orderly(w) && Faithful(w.a)
    ensures Faithful(Next(w, s).a)
  {
    match s {
      case Do(act) => ActFaithful(w.a, act, w.clock);
      case SubmitForm(p, i, form, consent) =>
        SubmitKeeps(w.a, i, form, consent, w.clock);
        if Submit(w.a, i, form, consent, w.clock).Recorded? {
          SignFaithful(w.a, i, form);
        }
      case FinishSeal(p) =>
        if RunsSeal(w, p) {
          CompleteFaithful(w.a, ExecutedFrom(w.procs[p].read));
        }
      case _ =>
    }
  }

  /** In every reachable state, including one where a void, a decline or a withdrawal landed
      during a seal, replaying the events gives back the status of the envelope, with a seal
      in progress read as out for signature, and of every signer. */
  lemma {:induction false} ReplayReproducesStatuses(w: World, steps: seq<Step>)
    requires Init(w)
    ensures var a := Run(w, steps).a;
            && Faithful(a)
            && ReplayStatus(a.events) == Visible(a.status)
            && forall i :: 0 <= i < |a.signers| ==> ReplaySigner(a.events, i) == a.signers[i].status
  {
    if steps != [] {
      ReplayReproducesStatuses(w, steps[..|steps| - 1]);
      RunOrderly(w, steps[..|steps| - 1]);
      NextKeepsFaithful(Run(w, steps[..|steps| - 1]), steps[|steps| - 1]);
    }
  }
}
