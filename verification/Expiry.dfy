/** How long an envelope stays open: sixty days from the moment it left draft, by the links, and
    by the sweep if it was sent. */
module Expiry {
  import opened Basics
  import opened Envelope
  import opened Runs
  import Lease
  import Sealed
  import SelfSigned

  const SIXTY_DAYS: real := 60.0 * 86400.0

  /** Nothing that an open draft does dates it. */
  predicate Undated(a: Agreement) {
    a.status == Drafting ==> a.sentAt == None && a.expiresAt == None && a.frozen == None
  }

  lemma ActKeepsUndated(a: Agreement, act: Act, now: real)
    requires Undated(a)
    ensures Undated(Acted(a, act, now))
  {
  }

  lemma NextKeepsUndated(w: World, s: Step)
    requires Lease.Orderly(w) && Undated(w.a)
    ensures Undated(Next(w, s).a)
  {
    if s.Do? {
      ActKeepsUndated(w.a, s.act, w.clock);
    }
  }

  lemma {:induction false} RunUndated(w: World, steps: seq<Step>)
    requires Init(w)
    ensures Undated(Run(w, steps).a)
  {
    if steps != [] {
      RunUndated(w, steps[..|steps| - 1]);
      Lease.RunOrderly(w, steps[..|steps| - 1]);
      NextKeepsUndated(Run(w, steps[..|steps| - 1]), steps[|steps| - 1]);
    }
  }

  /** The dates of `b` are those of `a`. */
  predicate SameDates(a: Agreement, b: Agreement) {
    b.sentAt == a.sentAt && b.expiresAt == a.expiresAt && b.createdAt == a.createdAt && b.status != Drafting
  }

  lemma ActKeepsDates(a: Agreement, act: Act, now: real)
    requires a.status != Drafting
    ensures SameDates(a, Acted(a, act, now))
  {
  }

  lemma NextKeepsDates(w: World, s: Step)
    requires Lease.Orderly(w) && w.a.status != Drafting
    ensures SameDates(w.a, Next(w, s).a)
  {
    if s.Do? {
      ActKeepsDates(w.a, s.act, w.clock);
    }
  }

  lemma {:induction false} DatesStay(w: World, steps: seq<Step>)
    requires Lease.Orderly(w) && w.a.status != Drafting
    ensures SameDates(w.a, Run(w, steps).a)
  {
    if steps != [] {
      DatesStay(w, steps[..|steps| - 1]);
      Lease.OrderlyFrom(w, steps[..|steps| - 1]);
      NextKeepsDates(Run(w, steps[..|steps| - 1]), steps[|steps| - 1]);
    }
  }

  predicate LeftAt(a: Agreement, sent: bool, now: real) {
    a.sentAt == Some(now) && a.expiresAt == if sent then Some(now + SIXTY_DAYS) else None
  }

  lemma LeavingActDates(a: Agreement, act: Act, now: real)
    requires a.status == Drafting && Lease.Unopened(a) && Undated(a) && Acted(a, act, now).status != Drafting
    ensures var b := Acted(a, act, now);
            b.status == Voided || (b.status == OutForSignature && LeftAt(b, act.ActSend?, now))
  {
  }

  /** What leaving draft dates. */
  lemma LeavingDates(w: World, s: Step)
    requires Lease.Orderly(w) && w.a.status == Drafting && Undated(w.a) && Next(w, s).a.status != Drafting
    ensures var b := Next(w, s).a;
            b.status == Voided || (b.status == OutForSignature && LeftAt(b, SelfSigned.IsSend(s), w.clock))
  {
    if s.Do? {
      LeavingActDates(w.a, s.act, w.clock);
    } else {
      Sealed.DraftCallsNothing(w, s);
    }
  }

  /** What is dated on leaving draft stays, if the envelope is still out for signature. */
  lemma LeftThenDated(before: World, s: Step, rest: seq<Step>)
    requires Lease.Orderly(before) && before.a.status == Drafting && Undated(before.a)
    requires Next(before, s).a.status != Drafting && Run(Next(before, s), rest).a.status == OutForSignature
    ensures LeftAt(Run(Next(before, s), rest).a, SelfSigned.IsSend(s), before.clock)
  {
    var left := Next(before, s);
    LeavingDates(before, s);
    Lease.NextKeepsOrderly(before, s);
    DatesStay(left, rest);
    if left.a.status == Voided {
      Lease.TerminalIsForever(left, rest);
    }
  }

  /** While an envelope is out for signature, its links live for sixty days from the moment a step
      of the run took it out of draft; the sweep ends it at the end of that time if it was sent,
      and never if its owner opened it by self-signing. */
  lemma SweptIffSixtyDaysSinceSent(w: World, run: seq<Step>, s: Step, rest: seq<Step>, now: real)
    requires Init(w) && Run(w, run).a.status == Drafting && Next(Run(w, run), s).a.status != Drafting
    requires Run(Next(Run(w, run), s), rest).a.status == OutForSignature
    ensures var a, t := Run(Next(Run(w, run), s), rest).a, Run(w, run).clock;
            && (Sweep(a, now).status == Expired <==> SelfSigned.IsSend(s) && now >= t + SIXTY_DAYS)
            && (Sweep(a, now).status == Expired || Sweep(a, now) == a)
            && (t > 0.0 ==> (LinkExpired(a, now) <==> now > t + SIXTY_DAYS))
  {
    Lease.RunOrderly(w, run);
    RunUndated(w, run);
    LeftThenDated(Run(w, run), s, rest);
  }
}
