/** Sequential signing over whole runs: signatures arrive in order of turn, each signer signs
    once, and an invitation goes only to a signer everyone before whom has signed. */
module SigningOrder {
  import opened Basics
  import opened Records
  import opened Envelope
  import opened Runs
  import opened Lease

  /** The signers in the order their signatures were recorded. */
  function SigningLog(events: seq<Event>): seq<nat> {
    if events == [] then []
    else
      var e := events[|events| - 1];
      SigningLog(events[..|events| - 1]) + if e.kind == EvSigned && e.signer.Some? then [e.signer.value] else []
  }

  lemma {:induction false} SigningLogAppend(a: seq<Event>, b: seq<Event>)
    ensures SigningLog(a + b) == SigningLog(a) + SigningLog(b)
  {
    if b == [] {
      assert a + b == a;
    } else {
      SigningLogAppend(a, b[..|b| - 1]);
      assert (a + b)[..|a + b| - 1] == a + b[..|b| - 1];
    }
  }

  predicate NoSigning(events: seq<Event>) {
    forall k :: 0 <= k < |events| ==> events[k].kind != EvSigned
  }

  lemma {:induction false} NoSigningLog(events: seq<Event>)
    requires NoSigning(events)
    ensures SigningLog(events) == []
  {
    if events != [] {
      NoSigningLog(events[..|events| - 1]);
    }
  }

  lemma {:induction false} SentEventsNoSigning(n: nat)
    ensures NoSigning(SentEvents(n))
  {
    if n > 0 {
      SentEventsNoSigning(n - 1);
    }
  }

  lemma {:induction false} FieldEventsNoSigning(fields: seq<Field>, ids: seq<int>, form: seq<Entry>, i: nat, adopted: set<string>)
    ensures NoSigning(FieldEvents(fields, ids, form, i, adopted))
    decreases |ids|
  {
    if ids != [] {
      var v := LastNamed(form, ids[0]);
      FieldEventsNoSigning(fields, ids[1..], form, i, adopted);
      if v.Some? {
        FieldEventsNoSigning(fields, ids[1..], form, i, adopted + {v.value.text});
      }
    }
  }

  predicate NoRepeats(log: seq<nat>) {
    forall i, j :: 0 <= i < j < |log| ==> log[i] != log[j]
  }

  predicate InTurn(signers: seq<Signer>, log: seq<nat>)
    requires forall k :: 0 <= k < |log| ==> log[k] < |signers|
  {
    forall i, j :: 0 <= i < j < |log| ==> Turn(signers[log[i]]) <= Turn(signers[log[j]])
  }

  /** Everyone with an earlier turn than `k` is in the log. */
  predicate EarlierIn(signers: seq<Signer>, log: seq<nat>, k: nat)
    requires k < |signers|
  {
    forall m: nat :: m < |signers| && Turn(signers[m]) < Turn(signers[k]) ==> m in log
  }

  /** The log names signers who can no longer sign, each once, and everyone who has. */
  ghost predicate Logged(a: Agreement) {
    var log := SigningLog(a.events);
    && (forall k :: 0 <= k < |log| ==> log[k] < |a.signers| && Spent(a.signers[log[k]]))
    && (forall m: nat :: m < |a.signers| && a.signers[m].status == Signed ==> m in log)
    && NoRepeats(log)
    && (a.status == Drafting ==> log == [] && Unopened(a))
  }

  /** Whoever is in the log came after everyone with an earlier turn. */
  ghost predicate EarlierFirst(signers: seq<Signer>, log: seq<nat>) {
    && (forall k :: 0 <= k < |log| ==> log[k] < |signers|)
    && InTurn(signers, log)
    && forall k: nat :: k < |signers| && k in log ==> EarlierIn(signers, log, k)
  }

  ghost predicate Ordered(a: Agreement) {
    Logged(a) && (a.sequential ==> EarlierFirst(a.signers, SigningLog(a.events)))
  }

  /** The parts of a row that signing order rests on: nothing but `Sign` adds to the log, and
      no later change of a signer's row gives back the right to sign. */
  predicate KeepsTurns(a: Agreement, b: Agreement) {
    && SigningLog(b.events) == SigningLog(a.events)
    && |b.signers| == |a.signers| && b.sequential == a.sequential
    && (a.status != Drafting ==> b.status != Drafting)
    && (b.status == Drafting ==> Unopened(b))
    && forall k :: 0 <= k < |a.signers| ==>
         && b.signers[k].order == a.signers[k].order
         && (Spent(a.signers[k]) ==> Spent(b.signers[k]))
         && (b.signers[k].status == Signed ==> a.signers[k].status == Signed)
  }

  lemma EarlierFirstKept(signers: seq<Signer>, after: seq<Signer>, log: seq<nat>)
    requires EarlierFirst(signers, log)
    requires |after| == |signers| && forall m :: 0 <= m < |signers| ==> after[m].order == signers[m].order
    ensures EarlierFirst(after, log)
  {
    assert forall m :: 0 <= m < |signers| ==> Turn(after[m]) == Turn(signers[m]);
    forall k: nat | k < |after| && k in log
      ensures EarlierIn(after, log, k)
    {
      assert EarlierIn(signers, log, k);
    }
  }

  lemma KeepsTurnsKeepsOrdered(a: Agreement, b: Agreement)
    requires Ordered(a) && KeepsTurns(a, b)
    ensures Ordered(b)
  {
    if a.sequential {
      EarlierFirstKept(a.signers, b.signers, SigningLog(a.events));
    }
  }

  /** One signer's row and the status change, and one event other than a signature says so. */
  lemma ChangeKeepsTurns(a: Agreement, i: nat, s: Signer, status: Status, e: Event)
    requires i < |a.signers| && e.kind != EvSigned
    requires s.order == a.signers[i].order
    requires Spent(a.signers[i]) ==> Spent(s)
    requires s.status == Signed ==> a.signers[i].status == Signed
    requires status == Drafting ==> a.status == Drafting && Unopened(a) && s.token.None?
    ensures KeepsTurns(a, Log(SetSigner(a, i, s).(status := status), [e]))
  {
    LoggedAfter(a, [e]);
  }

  lemma LoggedAfter(a: Agreement, more: seq<Event>)
    requires NoSigning(more)
    ensures SigningLog(a.events + more) == SigningLog(a.events)
  {
    SigningLogAppend(a.events, more);
    NoSigningLog(more);
  }

  lemma SendKeepsTurns(a: Agreement, tokens: seq<nat>, now: real)
    requires |tokens| == |a.signers| && Send(a, tokens, now).Some?
    requires a.status == Drafting && Ordered(a)
    ensures KeepsTurns(a, Send(a, tokens, now).value)
  {
    var b := Send(a, tokens, now).value;
    SentEventsNoSigning(|a.signers|);
    LoggedAfter(a, SentEvents(|a.signers|) + [Of(EvFrozen)]);
    assert b.events == a.events + (SentEvents(|a.signers|) + [Of(EvFrozen)]);
    forall k | 0 <= k < |a.signers|
      ensures b.signers[k].order == a.signers[k].order && b.signers[k].status == Sent
      ensures Spent(a.signers[k]) ==> Spent(b.signers[k])
    {
      assert b.signers[k] == SendTo(a.signers[k], tokens[k]);
      assert k !in SigningLog(a.events);
    }
  }

  lemma SelfSignKeepsTurns(a: Agreement, i: nat, token: nat, now: real)
    requires SelfSign(a, i, token, now).Some? && (a.status == Drafting ==> Unopened(a))
    ensures KeepsTurns(a, SelfSign(a, i, token, now).value)
  {
    var s := a.signers[i];
    ChangeKeepsTurns(a, i, s.(token := Some(if s.token.Some? then s.token.value else token)),
      if a.status == Drafting then OutForSignature else a.status, By(EvSelfSign, i));
  }

  lemma ViewKeepsTurns(a: Agreement, i: nat, now: real)
    requires View(a, i, now).Some? && (a.status == Drafting ==> Unopened(a))
    ensures KeepsTurns(a, View(a, i, now).value)
  {
    var s := a.signers[i];
    if s.status == Sent || s.status == Viewed {
      var shown := if s.viewed then s else s.(status := Viewed, viewed := true);
      ChangeKeepsTurns(a, i, shown, a.status, By(EvViewed, i));
      assert s.viewed ==> SetSigner(a, i, shown) == a;
    }
  }

  lemma NoteKeepsTurns(a: Agreement, i: nat, s: Signer, kind: EventKind)
    requires i < |a.signers| && kind != EvSigned && (a.status == Drafting ==> Unopened(a))
    requires s == a.signers[i].(consentAt := s.consentAt, lockUnmet := s.lockUnmet)
    ensures KeepsTurns(a, Log(SetSigner(a, i, s), [By(kind, i)]))
  {
    ChangeKeepsTurns(a, i, s, a.status, By(kind, i));
  }

  lemma WithdrawKeepsTurns(a: Agreement, i: nat)
    requires Withdraw(a, i).Some? && (a.status == Drafting ==> Unopened(a))
    ensures KeepsTurns(a, Withdraw(a, i).value)
  {
    var gone := a.signers[i].(withdrawn := true);
    ChangeKeepsTurns(a, i, if a.status == Completed then gone else gone.(status := SignerDeclined),
      if a.status == Completed || a.status == Voided || a.status == Cancelled then a.status else Declined,
      By(EvWithdrawn, i));
  }

  lemma DeclineKeepsTurns(a: Agreement, i: nat)
    requires Decline(a, i).Some? && (a.status == Drafting ==> Unopened(a))
    ensures KeepsTurns(a, Decline(a, i).value)
  {
    ChangeKeepsTurns(a, i, a.signers[i].(status := SignerDeclined), Declined, By(EvDeclined, i));
  }

  lemma SelfSignActKeepsTurns(a: Agreement, i: nat, token: nat, now: real)
    requires a.status == Drafting ==> Unopened(a)
    ensures KeepsTurns(a, OrElse(SelfSign(a, i, token, now), a))
  {
    if SelfSign(a, i, token, now).Some? { SelfSignKeepsTurns(a, i, token, now); } else { SameSignersKeepTurns(a, a); }
  }

  lemma ViewActKeepsTurns(a: Agreement, i: nat, now: real)
    requires a.status == Drafting ==> Unopened(a)
    ensures KeepsTurns(a, OrElse(View(a, i, now), a))
  {
    if View(a, i, now).Some? { ViewKeepsTurns(a, i, now); } else { SameSignersKeepTurns(a, a); }
  }

  lemma ConsentActKeepsTurns(a: Agreement, i: nat, now: real)
    requires a.status == Drafting ==> Unopened(a)
    ensures KeepsTurns(a, OrElse(RecordConsent(a, i, now), a))
  {
    if RecordConsent(a, i, now).Some? && a.signers[i].consentAt.None? {
      NoteKeepsTurns(a, i, a.signers[i].(consentAt := Some(now)), EvConsent);
    } else {
      SameSignersKeepTurns(a, a);
    }
  }

  lemma LockKeepsTurns(a: Agreement, i: nat, unmet: bool)
    requires a.status == Drafting ==> Unopened(a)
    ensures KeepsTurns(a, SetLock(a, i, unmet))
  {
    if i < |a.signers| {
      NoteKeepsTurns(a, i, a.signers[i].(lockUnmet := unmet), EvChallenge);
    } else {
      SameSignersKeepTurns(a, a);
    }
  }

  lemma WithdrawActKeepsTurns(a: Agreement, i: nat)
    requires a.status == Drafting ==> Unopened(a)
    ensures KeepsTurns(a, OrElse(Withdraw(a, i), a))
  {
    if Withdraw(a, i).Some? { WithdrawKeepsTurns(a, i); } else { SameSignersKeepTurns(a, a); }
  }

  lemma DeclineActKeepsTurns(a: Agreement, i: nat)
    requires a.status == Drafting ==> Unopened(a)
    ensures KeepsTurns(a, OrElse(Decline(a, i), a))
  {
    if Decline(a, i).Some? { DeclineKeepsTurns(a, i); } else { SameSignersKeepTurns(a, a); }
  }

  lemma OneSignerActKeepsTurns(a: Agreement, act: Act, now: real)
    requires a.status == Drafting ==> Unopened(a)
    requires act.ActSelfSign? || act.ActView? || act.ActConsent? || act.ActLock? || act.ActWithdraw? || act.ActDecline?
    ensures KeepsTurns(a, Acted(a, act, now))
  {
    match act
    case ActSelfSign(i, token) => SelfSignActKeepsTurns(a, i, token, now);
    case ActView(i) => ViewActKeepsTurns(a, i, now);
    case ActConsent(i) => ConsentActKeepsTurns(a, i, now);
    case ActLock(i, unmet) => LockKeepsTurns(a, i, unmet);
    case ActWithdraw(i) => WithdrawActKeepsTurns(a, i);
    case ActDecline(i) => DeclineActKeepsTurns(a, i);
  }

  lemma EnvelopeActKeepsTurns(a: Agreement, act: Act, now: real)
    requires a.status == Drafting ==> Unopened(a)
    requires act.ActFields? || act.ActPages? || act.ActVoid? || act.ActSweep?
    ensures KeepsTurns(a, Acted(a, act, now))
  {
    var kind := if act.ActVoid? then EvVoided else if act.ActSweep? then EvExpired else EvEdited;
    LoggedAfter(a, [Of(kind)]);
  }

  lemma ActOrdered(a: Agreement, act: Act, now: real)
    requires Ordered(a)
    ensures Ordered(Acted(a, act, now))
  {
    var b := Acted(a, act, now);
    match act {
      case ActSigners(signers) =>
        if a.status == Drafting && forall s :: s in signers ==> FreshSigner(s) {
          assert forall i :: 0 <= i < |signers| ==> FreshSigner(signers[i]);
        }
      case ActOrder(_) =>
      case ActSend(tokens) =>
        if |tokens| == |a.signers| && Send(a, tokens, now).Some? {
          SendKeepsTurns(a, tokens, now);
          KeepsTurnsKeepsOrdered(a, b);
        }
      case _ =>
        if act.ActFields? || act.ActPages? || act.ActVoid? || act.ActSweep? {
          EnvelopeActKeepsTurns(a, act, now);
        } else {
          OneSignerActKeepsTurns(a, act, now);
        }
        KeepsTurnsKeepsOrdered(a, b);
    }
  }

  lemma SignLog(a: Agreement, i: nat, form: Form)
    requires i < |a.signers|
    ensures SigningLog(Sign(a, i, form).events) == SigningLog(a.events) + [i]
  {
    var more := FieldEvents(a.doc.fields, NamedIds(form), form, i, {});
    FieldEventsNoSigning(a.doc.fields, NamedIds(form), form, i, {});
    SigningLogAppend(a.events, more + [By(EvSigned, i)]);
    SigningLogAppend(more, [By(EvSigned, i)]);
    NoSigningLog(more);
    assert SigningLog([By(EvSigned, i)]) == [i];
  }

  /** Adding a signer whose earlier signers are all in the log keeps the order. */
  lemma EarlierFirstExtended(signers: seq<Signer>, log: seq<nat>, i: nat)
    requires EarlierFirst(signers, log) && i < |signers| && i !in log && EarlierIn(signers, log, i)
    ensures EarlierFirst(signers, log + [i])
  {
    forall k | 0 <= k < |log|
      ensures Turn(signers[log[k]]) <= Turn(signers[i])
    {
      assert EarlierIn(signers, log, log[k]);
    }
    forall k: nat | k < |signers| && k in log + [i]
      ensures EarlierIn(signers, log + [i], k)
    {
      assert EarlierIn(signers, log, k);
    }
  }

  lemma SignLogged(a: Agreement, i: nat, form: Form)
    requires Logged(a) && a.status != Drafting && i < |a.signers| && !Spent(a.signers[i])
    ensures i !in SigningLog(a.events) && Logged(Sign(a, i, form))
  {
    SignLog(a, i, form);
    assert Sign(a, i, form).signers == a.signers[i := a.signers[i].(status := Signed)];
  }

  /** A signature is recorded only in the signer's turn. */
  lemma SignOrdered(a: Agreement, i: nat, form: Form)
    requires Ordered(a) && a.status != Drafting && i < |a.signers| && !Spent(a.signers[i])
    requires a.sequential ==> !EarlierUnsigned(a.signers, i)
    ensures Ordered(Sign(a, i, form))
  {
    var b, log := Sign(a, i, form), SigningLog(a.events);
    SignLog(a, i, form);
    SignLogged(a, i, form);
    if a.sequential {
      EarlierFirstExtended(a.signers, log, i);
      EarlierFirstKept(a.signers, b.signers, log + [i]);
    }
  }

  // ---- invitations ---------------------------------------------------------------------

  lemma {:induction false} NextTurnIsEarliest(signers: seq<Signer>)
    ensures NextTurn(signers).None? <==> AllSigned(signers)
    ensures NextTurn(signers).Some? ==>
      && (forall m :: 0 <= m < |signers| && signers[m].status != Signed ==> NextTurn(signers).value <= Turn(signers[m]))
      && exists m :: 0 <= m < |signers| && signers[m].status != Signed && Turn(signers[m]) == NextTurn(signers).value
  {
    if signers != [] {
      NextTurnIsEarliest(signers[1..]);
      forall m | 0 <= m < |signers|
        ensures m > 0 ==> signers[m] == signers[1..][m - 1]
      {
      }
      if m :| 0 <= m < |signers[1..]| && signers[1..][m].status != Signed && Turn(signers[1..][m]) == NextTurn(signers[1..]).value {
        assert signers[m + 1].status != Signed;
      }
      if AllSigned(signers[1..]) && signers[0].status == Signed {
        assert AllSigned(signers);
      }
      if AllSigned(signers) {
        assert forall m :: 0 <= m < |signers[1..]| ==> signers[1..][m] == signers[m + 1];
      }
    }
  }

  ghost predicate InvitesInTurn(w: World) {
    && (w.a.status == Drafting ==> w.invited == {})
    && (w.a.sequential ==> forall j :: j in w.invited ==> j < |w.a.signers| && EarlierIn(w.a.signers, SigningLog(w.a.events), j))
  }

  lemma InviteKept(a: Agreement, b: Agreement, j: nat)
    requires j < |a.signers| && EarlierIn(a.signers, SigningLog(a.events), j)
    requires |b.signers| == |a.signers|
    requires forall m :: 0 <= m < |a.signers| ==> b.signers[m].order == a.signers[m].order
    requires forall m :: m in SigningLog(a.events) ==> m in SigningLog(b.events)
    ensures EarlierIn(b.signers, SigningLog(b.events), j)
  {
    assert forall m :: 0 <= m < |a.signers| ==> Turn(b.signers[m]) == Turn(a.signers[m]);
  }

  /** The first invitations: nobody in a draft has an earlier turn than the first group. */
  lemma SendInvitesFirstGroup(a: Agreement, j: nat)
    requires Ordered(a) && a.sequential && a.status == Drafting && j < |a.signers| && InvitedAtSend(a, j)
    ensures EarlierIn(a.signers, SigningLog(a.events), j)
  {
    NextTurnIsEarliest(a.signers);
  }

  /** The next group: the unsigned of the earliest turn among the unsigned. */
  predicate InNextGroup(a: Agreement, j: nat) {
    j < |a.signers| && a.signers[j].status != Signed && NextTurn(a.signers) == Some(Turn(a.signers[j]))
  }

  /** While someone is unsigned the next group is not empty, and a cascade that finds the envelope
      open in sequential mode invites everyone in it who has an address and a token. */
  lemma CascadeInvitesTheNextGroup(w: World, p: nat)
    requires p in w.procs && w.procs[p].Cascading? && w.a.sequential
    requires w.a.status != Voided && w.a.status != Cancelled && w.a.status != Completed
    ensures !AllSigned(w.a.signers) ==> exists j: nat :: InNextGroup(w.a, j)
    ensures forall j: nat :: InNextGroup(w.a, j) && w.a.signers[j].email != "" && w.a.signers[j].token.Some?
              ==> j in Next(w, Cascade(p)).invited
    ensures forall j: nat :: j in Next(w, Cascade(p)).invited && j !in w.invited ==> InNextGroup(w.a, j)
  {
    NextTurnIsEarliest(w.a.signers);
    if !AllSigned(w.a.signers) {
      var m :| 0 <= m < |w.a.signers| && w.a.signers[m].status != Signed && Turn(w.a.signers[m]) == NextTurn(w.a.signers).value;
      assert InNextGroup(w.a, m);
    }
  }

  lemma CascadeInvitesInTurn(a: Agreement, j: nat)
    requires Ordered(a) && j < |a.signers| && InvitedByCascade(a, j)
    ensures EarlierIn(a.signers, SigningLog(a.events), j)
  {
    NextTurnIsEarliest(a.signers);
  }

  lemma SentDoKeepsInvites(w: World, act: Act)
    requires Ordered(w.a) && InvitesInTurn(w) && w.a.status != Drafting
    ensures InvitesInTurn(Next(w, Do(act)))
  {
    var a, b := w.a, Acted(w.a, act, w.clock);
    ActLeavesDraft(a, act, w.clock);
    LogAndTurnsStay(a, act, w.clock);
    forall j | a.sequential && j in w.invited
      ensures EarlierIn(b.signers, SigningLog(b.events), j)
    {
      InviteKept(a, b, j);
    }
  }

  lemma SendKeepsInvites(w: World, tokens: seq<nat>)
    requires Ordered(w.a) && InvitesInTurn(w) && w.a.status == Drafting
    requires |tokens| == |w.a.signers| && Send(w.a, tokens, w.clock).Some?
    ensures InvitesInTurn(Next(w, Do(ActSend(tokens))))
  {
    var a, b := w.a, Send(w.a, tokens, w.clock).value;
    SendKeepsTurns(a, tokens, w.clock);
    forall j | a.sequential && j in InvitedBy(a, ActSend(tokens))
      ensures EarlierIn(b.signers, SigningLog(b.events), j)
    {
      SendInvitesFirstGroup(a, j);
      InviteKept(a, b, j);
    }
  }

  lemma DoKeepsInvites(w: World, act: Act)
    requires Ordered(w.a) && InvitesInTurn(w)
    ensures InvitesInTurn(Next(w, Do(act)))
  {
    if w.a.status != Drafting {
      SentDoKeepsInvites(w, act);
    } else if act.ActSend? && |act.tokens| == |w.a.signers| && Send(w.a, act.tokens, w.clock).Some? {
      SendKeepsInvites(w, act.tokens);
    } else {
      ActLeavesDraft(w.a, act, w.clock);
    }
  }

  lemma LogAndTurnsStay(a: Agreement, act: Act, now: real)
    requires a.status != Drafting
    ensures KeepsTurns(a, Acted(a, act, now))
  {
    if act.ActVoid? || act.ActSweep? {
      EnvelopeActKeepsTurns(a, act, now);
    } else if act.ActSelfSign? || act.ActView? || act.ActConsent? || act.ActLock? || act.ActWithdraw? || act.ActDecline? {
      OneSignerActKeepsTurns(a, act, now);
    }
  }

  lemma InvitesKept(w: World, w': World)
    requires InvitesInTurn(w) && w'.invited == w.invited && (w'.a.status == Drafting ==> w.a.status == Drafting)
    requires |w'.a.signers| == |w.a.signers| && w'.a.sequential == w.a.sequential
    requires forall m :: 0 <= m < |w.a.signers| ==> w'.a.signers[m].order == w.a.signers[m].order
    requires forall m :: m in SigningLog(w.a.events) ==> m in SigningLog(w'.a.events)
    ensures InvitesInTurn(w')
  {
    forall j | w.a.sequential && j in w.invited
      ensures EarlierIn(w'.a.signers, SigningLog(w'.a.events), j)
    {
      InviteKept(w.a, w'.a, j);
    }
  }

  lemma SubmitKeepsOrder(w: World, p: nat, i: nat, form: Form, consent: bool)
    requires Ordered(w.a) && InvitesInTurn(w)
    ensures var w' := Next(w, SubmitForm(p, i, form, consent)); Ordered(w'.a) && InvitesInTurn(w')
  {
    var r := Submit(w.a, i, form, consent, w.clock);
    var w' := Next(w, SubmitForm(p, i, form, consent));
    assert w'.invited == w.invited;
    if p !in w.procs && r.Recorded? {
      SubmitAllowed(w.a, i, form, consent, w.clock);
      assert w'.a == Sign(w.a, i, form);
      SignKeepsOrder(w, w', i, form);
    } else {
      assert w'.a == w.a;
    }
  }

  lemma SignKeepsOrder(w: World, w': World, i: nat, form: Form)
    requires Ordered(w.a) && InvitesInTurn(w) && i < |w.a.signers|
    requires w.a.signers[i].token.Some? && !Spent(w.a.signers[i])
    requires w.a.sequential ==> !EarlierUnsigned(w.a.signers, i)
    requires w'.a == Sign(w.a, i, form) && w'.invited == w.invited
    ensures Ordered(w'.a) && InvitesInTurn(w')
  {
    SignOrdered(w.a, i, form);
    SignLog(w.a, i, form);
    InvitesKept(w, w');
  }

  lemma CascadeKeepsOrder(w: World, p: nat)
    requires Ordered(w.a) && InvitesInTurn(w) && (w.a.status == Drafting ==> w.procs == map[])
    ensures var w' := Next(w, Cascade(p)); Ordered(w'.a) && InvitesInTurn(w')
  {
    var w' := Next(w, Cascade(p));
    assert w'.a == w.a;
    if p in w.procs && w.procs[p].Cascading? {
      var more := set i | 0 <= i < |w.a.signers| && InvitedByCascade(w.a, i);
      assert w'.invited == w.invited + more;
      forall j | j in more
        ensures j < |w.a.signers| && EarlierIn(w.a.signers, SigningLog(w.a.events), j)
      {
        CascadeInvitesInTurn(w.a, j);
      }
    }
  }

  /** A step of a `finalize` call touches the envelope's status and log, and no signature. */
  lemma SealStepKeepsTurns(w: World, s: Step)
    requires Orderly(w) && Logged(w.a)
    requires s.ClaimSeal? || s.FinishSeal? || s.FailSeal? || s.Tick? || s.Count? || s.ReadRow? || s.Crash?
    ensures Next(w, s).invited == w.invited
    ensures KeepsTurns(w.a, Next(w, s).a)
  {
    SealStepRow(w, s);
    LoggedAfter(w.a, [Of(EvSealed), Of(EvCompleted)]);
    SameSignersKeepTurns(w.a, Next(w, s).a);
  }

  lemma SameSignersKeepTurns(a: Agreement, b: Agreement)
    requires b.signers == a.signers && b.sequential == a.sequential && SigningLog(b.events) == SigningLog(a.events)
    requires b.status == Drafting <==> a.status == Drafting
    requires a.status == Drafting ==> Unopened(a)
    ensures KeepsTurns(a, b)
  {
  }

  /** A step of a call leaves the signers alone, and adds at most the completion's events. */
  lemma SealStepRow(w: World, s: Step)
    requires Orderly(w) && !s.Do? && !s.SubmitForm? && !s.Cascade?
    ensures var a, b := w.a, Next(w, s).a;
            && Next(w, s).invited == w.invited
            && b.signers == a.signers && b.sequential == a.sequential
            && (b.events == a.events || b.events == a.events + [Of(EvSealed), Of(EvCompleted)])
            && (b.status == Drafting <==> a.status == Drafting)
  {
  }

  lemma SealStepKeepsOrder(w: World, s: Step)
    requires Orderly(w) && Ordered(w.a) && InvitesInTurn(w)
    requires s.ClaimSeal? || s.FinishSeal? || s.FailSeal? || s.Tick? || s.Count? || s.ReadRow? || s.Crash?
    ensures var w' := Next(w, s); Ordered(w'.a) && InvitesInTurn(w')
  {
    var w' := Next(w, s);
    SealStepKeepsTurns(w, s);
    ThenOrdered(w, w');
  }

  lemma ThenOrdered(w: World, w': World)
    requires Ordered(w.a) && InvitesInTurn(w) && w'.invited == w.invited
    requires KeepsTurns(w.a, w'.a)
    requires w'.a.status == Drafting ==> w.a.status == Drafting
    ensures Ordered(w'.a) && InvitesInTurn(w')
  {
    KeepsTurnsKeepsOrdered(w.a, w'.a);
    InvitesKept(w, w');
  }

  lemma {:induction false} RunOrdered(w: World, steps: seq<Step>)
    requires Init(w)
    ensures Ordered(Run(w, steps).a) && InvitesInTurn(Run(w, steps))
  {
    if steps != [] {
      var before, s := Run(w, steps[..|steps| - 1]), steps[|steps| - 1];
      RunOrdered(w, steps[..|steps| - 1]);
      RunOrderly(w, steps[..|steps| - 1]);
      match s {
        case Do(act) =>
          ActOrdered(before.a, act, before.clock);
          DoKeepsInvites(before, act);
        case SubmitForm(p, i, form, consent) => SubmitKeepsOrder(before, p, i, form, consent);
        case Cascade(p) => CascadeKeepsOrder(before, p);
        case _ => SealStepKeepsOrder(before, s);
      }
    }
  }

  /** In every run, nobody signs twice; with sequential order the signatures come in
      nondecreasing turn, and everyone invited by `send` or by the cascade was invited after
      all signers with earlier turns had signed. */
  lemma SequentialRunsSignInTurn(w: World, steps: seq<Step>)
    requires Init(w)
    ensures var a, log := Run(w, steps).a, SigningLog(Run(w, steps).a.events);
            && NoRepeats(log) && (forall k :: 0 <= k < |log| ==> log[k] < |a.signers|)
            && (a.sequential ==> InTurn(a.signers, log))
            && (a.sequential ==> forall j :: j in Run(w, steps).invited ==> j < |a.signers| && EarlierIn(a.signers, log, j))
  {
    RunOrdered(w, steps);
  }
}
