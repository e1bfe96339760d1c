/** Nobody whose turn it is waits uninvited: over every run in which no call dies, each signer with
    an address is invited by the time nothing but that signer's own turn is awaited, or a call
    that will invite is under way. */
module Invitations {
  import opened Basics
  import opened Envelope
  import opened Runs
  import opened Lease
  import Completion
  import Healing
  import SigningOrder

  /** Unsigned, with an address, and in sequential mode with everyone of an earlier turn signed. */
  predicate Due(a: Agreement, j: nat) {
    && j < |a.signers| && a.signers[j].status != Signed && a.signers[j].email != ""
    && (a.sequential ==> forall m :: 0 <= m < |a.signers| && Turn(a.signers[m]) < Turn(a.signers[j]) ==> a.signers[m].status == Signed)
  }

  /** Being due in sequential mode is being in the next group. */
  lemma DueIsNext(a: Agreement, j: nat)
    requires a.sequential && j < |a.signers|
    ensures Due(a, j) <==> a.signers[j].status != Signed && a.signers[j].email != "" && NextTurn(a.signers) == Some(Turn(a.signers[j]))
  {
    SigningOrder.NextTurnIsEarliest(a.signers);
  }

  /** Sending a draft invites exactly the signers who are due. */
  lemma SendInvitesTheDue(a: Agreement, tokens: seq<nat>, now: real)
    requires |tokens| == |a.signers| && Send(a, tokens, now).Some?
    requires forall i :: 0 <= i < |a.signers| ==> a.signers[i].status != Signed
    ensures forall j: nat :: j in InvitedBy(a, ActSend(tokens)) <==> Due(a, j)
  {
    forall j: nat | j < |a.signers|
      ensures InvitedAtSend(a, j) <==> Due(a, j)
    {
      if a.sequential {
        DueIsNext(a, j);
      }
    }
  }

  /** A call that will invite the next group. */
  predicate Inviting(p: Proc) {
    p == Counting(false) || p == Cascading
  }

  predicate OnItsWay(w: World) {
    exists p :: p in w.procs && Inviting(w.procs[p])
  }

  ghost predicate DueAreInvited(w: World) {
    w.a.frozen.Some? && InFlight(w.a.status) ==>
      (w.a.sequential && OnItsWay(w)) || forall j: nat :: Due(w.a, j) ==> j in w.invited
  }

  /** Nobody has signed or ceased to be signed. */
  predicate SameTurns(a: Agreement, b: Agreement) {
    && |b.signers| == |a.signers| && b.sequential == a.sequential
    && forall i :: 0 <= i < |a.signers| ==>
         && b.signers[i].email == a.signers[i].email && b.signers[i].order == a.signers[i].order
         && (b.signers[i].status == Signed <==> a.signers[i].status == Signed)
  }

  lemma SameDue(a: Agreement, b: Agreement, j: nat)
    requires SameTurns(a, b) && Due(b, j)
    ensures Due(a, j)
  {
    forall m | 0 <= m < |a.signers| && a.sequential && Turn(a.signers[m]) < Turn(a.signers[j])
      ensures a.signers[m].status == Signed
    {
      assert Turn(b.signers[m]) < Turn(b.signers[j]);
    }
  }

  lemma DueStayInvited(w: World, u: World)
    requires DueAreInvited(w) && w.a.frozen.Some? && InFlight(w.a.status) && SameTurns(w.a, u.a)
    requires w.invited <= u.invited && (OnItsWay(w) ==> OnItsWay(u))
    ensures DueAreInvited(u)
  {
    forall j: nat | Due(u.a, j)
      ensures Due(w.a, j)
    {
      SameDue(w.a, u.a, j);
    }
  }

  /** One signer's row changes, and nothing of its turn. */
  lemma OneRowKeepsTurns(a: Agreement, i: nat, b: Agreement)
    requires b.sequential == a.sequential && i < |a.signers| == |b.signers| && b.signers == a.signers[i := b.signers[i]]
    requires b.signers[i].email == a.signers[i].email && b.signers[i].order == a.signers[i].order
    requires b.signers[i].status == Signed <==> a.signers[i].status == Signed
    ensures SameTurns(a, b)
  {
  }

  /** The frozen copy stays, and so do the turns while the envelope is open. */
  predicate Steady(a: Agreement, b: Agreement) {
    b.frozen == a.frozen && (InFlight(b.status) ==> SameTurns(a, b))
  }

  lemma SelfSignKeepsTurns(a: Agreement, i: nat, token: nat, now: real)
    requires a.status != Drafting && i < |a.signers|
    ensures Steady(a, OrElse(SelfSign(a, i, token, now), a))
  {
    OneRowKeepsTurns(a, i, OrElse(SelfSign(a, i, token, now), a));
  }

  lemma PageActKeepsTurns(a: Agreement, i: nat, now: real)
    requires a.status != Drafting && i < |a.signers|
    ensures Steady(a, OrElse(View(a, i, now), a))
    ensures Steady(a, OrElse(RecordConsent(a, i, now), a))
  {
    OneRowKeepsTurns(a, i, OrElse(View(a, i, now), a));
    OneRowKeepsTurns(a, i, OrElse(RecordConsent(a, i, now), a));
  }

  lemma EndActKeepsTurns(a: Agreement, i: nat, unmet: bool)
    requires a.status != Drafting && i < |a.signers|
    ensures Steady(a, SetLock(a, i, unmet))
    ensures Steady(a, OrElse(Withdraw(a, i), a))
    ensures Steady(a, OrElse(Decline(a, i), a))
  {
    OneRowKeepsTurns(a, i, SetLock(a, i, unmet));
    OneRowKeepsTurns(a, i, OrElse(Decline(a, i), a));
  }

  lemma SignerActKeepsTurns(a: Agreement, act: Act, now: real)
    requires a.status != Drafting
    requires act.ActSelfSign? || act.ActView? || act.ActConsent? || act.ActLock? || act.ActWithdraw? || act.ActDecline?
    ensures Steady(a, Acted(a, act, now))
  {
    if act.i >= |a.signers| {
      assert Acted(a, act, now) == a;
    } else if act.ActSelfSign? {
      SelfSignKeepsTurns(a, act.i, act.token, now);
    } else if act.ActView? || act.ActConsent? {
      PageActKeepsTurns(a, act.i, now);
    } else {
      EndActKeepsTurns(a, act.i, act.ActLock? && act.unmet);
    }
  }

  lemma ActKeepsTurns(a: Agreement, act: Act, now: real)
    requires a.status != Drafting
    ensures var b := Acted(a, act, now);
            Steady(a, b) && (InFlight(b.status) ==> InFlight(a.status))
  {
    if Terminal(a.status) {
      ActKeepsTerminal(a, act, now);
    }
    if act.ActSelfSign? || act.ActView? || act.ActConsent? || act.ActLock? || act.ActWithdraw? || act.ActDecline? {
      SignerActKeepsTurns(a, act, now);
    }
  }

  lemma DoInvites(w: World, act: Act)
    requires DueAreInvited(w) && w.a.status != Drafting
    ensures DueAreInvited(Next(w, Do(act)))
  {
    ActKeepsTurns(w.a, act, w.clock);
    var u := Next(w, Do(act));
    if u.a.frozen.Some? && InFlight(u.a.status) {
      DueStayInvited(w, u);
    }
  }

  /** A draft in which nobody has signed; only `send` freezes it. */
  lemma DraftDoInvites(w: World, act: Act)
    requires w.a.status == Drafting && w.a.frozen == None
    requires forall i :: 0 <= i < |w.a.signers| ==> w.a.signers[i].status != Signed
    ensures DueAreInvited(Next(w, Do(act)))
  {
    var u := Next(w, Do(act));
    if u.a.frozen.Some? {
      assert act.ActSend? && |act.tokens| == |w.a.signers| && Send(w.a, act.tokens, w.clock).Some?;
      SendInvitesTheDue(w.a, act.tokens, w.clock);
      assert InvitedBy(w.a, act) <= u.invited;
      forall j: nat | Due(u.a, j)
        ensures j in u.invited
      {
        assert SameTurns(w.a, u.a);
        SameDue(w.a, u.a, j);
      }
    }
  }

  /** A signature in parallel mode makes nobody due. */
  lemma SignMakesNobodyDue(a: Agreement, i: nat, form: Form, j: nat)
    requires !a.sequential && i < |a.signers| && Due(Sign(a, i, form), j)
    ensures Due(a, j)
  {
  }

  lemma SubmitInvites(w: World, p: nat, i: nat, form: Form, consent: bool)
    requires DueAreInvited(w) && Orderly(w)
    ensures DueAreInvited(Next(w, SubmitForm(p, i, form, consent)))
  {
    var u := Next(w, SubmitForm(p, i, form, consent));
    if p !in w.procs {
      assert forall q :: q in w.procs ==> q in u.procs && u.procs[q] == w.procs[q];
      assert u.invited == w.invited;
      if Submit(w.a, i, form, consent, w.clock).Recorded? {
        SubmitAllowed(w.a, i, form, consent, w.clock);
        assert p in u.procs && Inviting(u.procs[p]);
        forall j: nat | !w.a.sequential && Due(u.a, j)
          ensures Due(w.a, j)
        {
          SignMakesNobodyDue(w.a, i, form, j);
        }
      } else {
        assert u.a == w.a && (OnItsWay(w) ==> OnItsWay(u));
      }
    }
  }

  /** The call that invites has invited everyone who is due. */
  lemma CascadeInvites(w: World, p: nat)
    requires p in w.procs && w.procs[p] == Cascading && Completion.Intact(w.a) && DueAreInvited(w)
    ensures DueAreInvited(Next(w, Cascade(p)))
  {
    var u := Next(w, Cascade(p));
    if w.a.frozen.Some? && InFlight(w.a.status) && w.a.sequential {
      forall j: nat | Due(w.a, j)
        ensures j in u.invited
      {
        DueIsNext(w.a, j);
        assert InvitedByCascade(w.a, j);
      }
    }
  }

  /** A call that counts either invites next or finds that nobody is due. */
  lemma CountInvites(w: World, p: nat)
    requires DueAreInvited(w)
    ensures DueAreInvited(Next(w, Count(p)))
  {
    var u := Next(w, Count(p));
    if p in w.procs && w.procs[p].Counting? && !AllSigned(w.a.signers) {
      if w.procs[p] == Counting(false) {
        assert p in u.procs && Inviting(u.procs[p]);
      } else if q :| q in w.procs && Inviting(w.procs[q]) {
        assert q in u.procs && Inviting(u.procs[q]);
      }
    }
  }

  /** A step of a call that neither counts, invites nor dies. */
  lemma SealStepTurns(w: World, s: Step)
    requires Orderly(w) && (s.Tick? || s.ReadRow? || s.ClaimSeal? || s.FinishSeal? || s.FailSeal?)
    ensures var u := Next(w, s);
            && SameTurns(w.a, u.a) && u.invited == w.invited && u.a.frozen == w.a.frozen
            && (InFlight(u.a.status) ==> InFlight(w.a.status))
            && forall q :: q in w.procs && Inviting(w.procs[q]) ==> q in u.procs && u.procs[q] == w.procs[q]
  {
  }

  lemma SealStepInvites(w: World, s: Step)
    requires Orderly(w) && DueAreInvited(w)
    requires s.Tick? || s.ReadRow? || s.ClaimSeal? || s.FinishSeal? || s.FailSeal?
    ensures DueAreInvited(Next(w, s))
  {
    var u := Next(w, s);
    SealStepTurns(w, s);
    if u.a.frozen.Some? && InFlight(u.a.status) {
      DueStayInvited(w, u);
    }
  }

  lemma NextInvites(w: World, s: Step)
    requires Orderly(w) && Completion.Intact(w.a) && DueAreInvited(w) && !s.Crash?
    requires w.a.status == Drafting ==> forall i :: 0 <= i < |w.a.signers| ==> w.a.signers[i].status != Signed
    ensures DueAreInvited(Next(w, s))
  {
    match s
    case Do(act) => if w.a.status == Drafting { DraftDoInvites(w, act); } else { DoInvites(w, act); }
    case SubmitForm(p, i, form, consent) => SubmitInvites(w, p, i, form, consent);
    case Count(p) => CountInvites(w, p);
    case Cascade(p) => if p in w.procs && w.procs[p].Cascading? { CascadeInvites(w, p); }
    case _ => SealStepInvites(w, s);
  }

  predicate NoCallDies(steps: seq<Step>) {
    forall k :: 0 <= k < |steps| ==> !steps[k].Crash?
  }

  /** In every run in which no call dies, while a sent envelope is open: everyone who is due has
      been invited, or, in sequential mode, a call that will invite the next group is under way.
      In parallel mode everyone unsigned with an address is due. */
  lemma {:induction false} EveryoneDueIsInvited(w: World, steps: seq<Step>)
    requires Init(w) && NoCallDies(steps)
    ensures DueAreInvited(Run(w, steps))
  {
    if steps != [] {
      var prefix := steps[..|steps| - 1];
      EveryoneDueIsInvited(w, prefix);
      RunOrderly(w, prefix);
      Completion.RunIntact(w, prefix);
      if Run(w, prefix).a.status == Drafting {
        DraftsAreUnsigned(w, prefix);
      }
      NextInvites(Run(w, prefix), steps[|steps| - 1]);
    }
  }

  lemma DraftsAreUnsigned(w: World, steps: seq<Step>)
    requires Init(w) && Run(w, steps).a.status == Drafting
    ensures forall i :: 0 <= i < |Run(w, steps).a.signers| ==> Run(w, steps).a.signers[i].status != Signed
  {
    RunOrderly(w, steps);
    Healing.RunRepeatable(w, steps);
  }
}
