/** Runs of one envelope: the transactions of module Envelope, interleaved by any number of
    callers, and the calls of `finalize` with their separate read, claim, write and release
    (sign/esign.py). A run is a sequence of steps; a step whose guard fails changes nothing. */
module Runs {
  import opened Basics
  import opened Records
  import opened Envelope
  import Pages

  /** Where one call that began with a submission has got to. */
  datatype Proc =
    | Counting(resubmitted: bool)  // about to count the unsigned signers
    | Cascading                    // about to invite the next group
    | Called                       // about to enter `finalize`
    | HasRead(read: Agreement)     // has read the row, has not claimed
    | Sealer(read: Agreement, claimedAt: real)  // holds, or held, the claim

  datatype World = World(a: Agreement, clock: real, procs: map<nat, Proc>, invited: set<nat>)

  /** A transaction made by a person or the sweep, complete in one step. */
  datatype Act =
    | ActSigners(signers: seq<Signer>) | ActFields(fields: seq<Field>) | ActOrder(sequential: bool)
    | ActPages(op: Pages.Op)
    | ActSend(tokens: seq<nat>) | ActSelfSign(i: nat, token: nat)
    | ActView(i: nat) | ActConsent(i: nat) | ActLock(i: nat, unmet: bool)
    | ActWithdraw(i: nat) | ActDecline(i: nat) | ActVoid | ActSweep

  datatype Step =
    | Tick(dt: real)
    | Do(act: Act)
    | SubmitForm(p: nat, i: nat, form: Form, consent: bool)
    | Count(p: nat)
    | Cascade(p: nat)
    | ReadRow(p: nat)
    | ClaimSeal(p: nat, at: real)
    | FinishSeal(p: nat)
    | FailSeal(p: nat)
    | Crash(p: nat)

  function OrElse(next: Option<Agreement>, a: Agreement): Agreement {
    if next.Some? then next.value else a
  }

  function Acted(a: Agreement, act: Act, now: real): Agreement {
    match act
    case ActSigners(signers) => SetSigners(a, signers)
    case ActFields(fields) => SetFields(a, fields)
    case ActOrder(sequential) => SetOrderMode(a, sequential)
    case ActPages(op) => EditPages(a, op)
    case ActSend(tokens) => if |tokens| != |a.signers| then a else OrElse(Send(a, tokens, now), a)
    case ActSelfSign(i, token) => OrElse(SelfSign(a, i, token, now), a)
    case ActView(i) => OrElse(View(a, i, now), a)
    case ActConsent(i) => OrElse(RecordConsent(a, i, now), a)
    case ActLock(i, unmet) => SetLock(a, i, unmet)
    case ActWithdraw(i) => OrElse(Withdraw(a, i), a)
    case ActDecline(i) => OrElse(Decline(a, i), a)
    case ActVoid => Void(a)
    case ActSweep => Sweep(a, now)
  }

  /** The invitations that go out with an act: only `send` of a draft has any. */
  function InvitedBy(a: Agreement, act: Act): set<nat> {
    if act.ActSend? && |act.tokens| == |a.signers| && Send(a, act.tokens, 0.0).Some?
    then set i | 0 <= i < |a.signers| && InvitedAtSend(a, i)
    else {}
  }

  function At(w: World, p: nat, proc: Proc): World {
    w.(procs := w.procs[p := proc])
  }

  function Ended(w: World, p: nat): World {
    w.(procs := w.procs - {p})
  }

  function Submitted(w: World, p: nat, i: nat, form: Form, consent: bool): World {
    match Submit(w.a, i, form, consent, w.clock)
    case Refused(_) => w
    case Already(recount) => if recount then At(w, p, Counting(true)) else w
    case Recorded(next) => At(w.(a := next), p, Counting(false))
  }

  function Counted(w: World, p: nat, resubmitted: bool): World {
    if AllSigned(w.a.signers) then At(w, p, Called)
    else if resubmitted then Ended(w, p)
    else At(w, p, Cascading)
  }

  /** `finalize` up to its claim: completed or locked envelopes are left alone. */
  function RowRead(w: World, p: nat): World {
    if w.a.status == Completed || AnyLockUnmet(w.a.signers) then Ended(w, p)
    else At(w, p, HasRead(w.a))
  }

  /** The claim records a time read from the clock at or before the update. */
  function Claimed(w: World, p: nat, read: Agreement, at: real): World {
    match Claim(w.a, at)
    case None => Ended(w, p)
    case Some(a) => At(w.(a := a), p, Sealer(read, at))
  }

  function Next(w: World, s: Step): World {
    match s
    case Tick(dt) => if dt < 0.0 then w else w.(clock := w.clock + dt)
    case Do(act) => w.(a := Acted(w.a, act, w.clock), invited := w.invited + InvitedBy(w.a, act))
    case SubmitForm(p, i, form, consent) => if p in w.procs then w else Submitted(w, p, i, form, consent)
    case Count(p) =>
      if p in w.procs && w.procs[p].Counting? then Counted(w, p, w.procs[p].resubmitted) else w
    case Cascade(p) =>
      if p in w.procs && w.procs[p].Cascading?
      then Ended(w.(invited := w.invited + set i | 0 <= i < |w.a.signers| && InvitedByCascade(w.a, i)), p) else w
    case ReadRow(p) => if p in w.procs && w.procs[p].Called? then RowRead(w, p) else w
    case ClaimSeal(p, at) =>
      if p in w.procs && w.procs[p].HasRead? && at <= w.clock then Claimed(w, p, w.procs[p].read, at) else w
    case FinishSeal(p) =>
      if p in w.procs && w.procs[p].Sealer?
      then Ended(w.(a := Complete(w.a, ExecutedFrom(w.procs[p].read))), p) else w
    case FailSeal(p) =>
      if p in w.procs && w.procs[p].Sealer?
      then Ended(w.(a := Release(w.a, ReleaseTarget(w.procs[p].read.status))), p) else w
    case Crash(p) => if p in w.procs then Ended(w, p) else w
  }

  /** A draft as `create_agreement` leaves it. */
  predicate Init(w: World) {
    && w.a.status == Drafting && w.a.signers == [] && w.a.events == [] && w.a.frozen == None && w.a.executed == None
    && w.a.sentAt == None && w.a.expiresAt == None && w.a.sealingAt == None
    && w.a.doc.fields == [] && w.a.doc.edited == "" && (forall p :: p in w.a.doc.pages ==> !p.edited)
    && w.procs == map[] && w.invited == {}
  }

  function Run(w: World, steps: seq<Step>): World {
    if steps == [] then w else Next(Run(w, steps[..|steps| - 1]), steps[|steps| - 1])
  }

  lemma {:induction false} RunAppend(w: World, a: seq<Step>, b: seq<Step>)
    ensures Run(w, a + b) == Run(Run(w, a), b)
  {
    if b == [] {
      assert a + b == a;
    } else {
      RunAppend(w, a, b[..|b| - 1]);
      assert (a + b)[..|a + b| - 1] == a + b[..|b| - 1];
    }
  }
}
