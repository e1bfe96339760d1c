/** What is presented when an envelope did not leave draft through `send`: self-signing opens a
    draft without freezing it, so its text-edited pages are shown as they were authored. */
module SelfSigned {
  import opened Basics
  import opened Envelope
  import opened Runs
  import opened Overrun
  import Lease
  import Pages
  import Sealed

  predicate IsSend(s: Step) {
    s.Do? && s.act.ActSend?
  }

  /** Leaving draft freezes a copy exactly if it is by `send`, and that stays so. */
  lemma OnceLeft(draft: World, s: Step, rest: seq<Step>)
    requires Lease.Orderly(draft) && draft.a.status == Drafting && draft.a.frozen == None
    requires Next(draft, s).a.status != Drafting
    ensures Run(Next(draft, s), rest).a.frozen.Some? <==> IsSend(s)
  {
    if !s.Do? {
      Sealed.DraftCallsNothing(draft, s);
    }
    Lease.NextKeepsOrderly(draft, s);
    Sealed.NothingShownChanges(Next(draft, s), rest);
  }

  predicate RastersEdited(a: Agreement) {
    && |Presented(a)| == |a.doc.pages|
    && forall i :: 0 <= i < |a.doc.pages| && a.doc.pages[i].edited ==> Presented(a)[i] == Pages.Raster(a.doc.pages[i])
  }

  predicate AnyEdited(a: Agreement) {
    exists i :: 0 <= i < |a.doc.pages| && a.doc.pages[i].edited
  }

  /** The whole run: up to the step that takes the envelope out of draft, that step, the rest. */
  lemma RunThrough(w: World, run: seq<Step>, s: Step, rest: seq<Step>)
    ensures Run(w, run + [s] + rest) == Run(Next(Run(w, run), s), rest)
  {
    RunThen(w, run, s);
    RunAppend(w, run + [s], rest);
  }

  lemma PartsAreGenuine(run: seq<Step>, s: Step, rest: seq<Step>)
    requires Sealed.GenuinePages(run + [s] + rest)
    ensures Sealed.GenuinePages(run)
  {
    forall k | 0 <= k < |run|
      ensures run[k] == (run + [s] + rest)[k]
    {
    }
  }

  lemma FrozenIffSent(w: World, run: seq<Step>, s: Step, rest: seq<Step>)
    requires Init(w) && Sealed.GenuinePages(run)
    requires Run(w, run).a.status == Drafting && Next(Run(w, run), s).a.status != Drafting
    ensures Run(Next(Run(w, run), s), rest).a.frozen.Some? <==> IsSend(s)
  {
    Sealed.SentCopyRastersEditedPages(w, run);
    Lease.RunOrderly(w, run);
    OnceLeft(Run(w, run), s, rest);
  }

  /** With a frozen copy that is exact, or none, the edited pages are rasterised as it says. */
  lemma RastersIffFrozen(a: Agreement)
    requires Sealed.FrozenExactly(a)
    ensures RastersEdited(a) <==> a.frozen.Some? || !AnyEdited(a)
  {
  }

  /** Once a step of the run has taken the envelope out of draft, the presented document
      rasterises every text-edited page exactly when that step was `send` or there is no such
      page. */
  lemma EditedPagesAreRasterisedIffSent(w: World, run: seq<Step>, s: Step, rest: seq<Step>)
    requires Init(w) && Sealed.GenuinePages(run + [s] + rest)
    requires Run(w, run).a.status == Drafting && Next(Run(w, run), s).a.status != Drafting
    ensures var a := Run(Next(Run(w, run), s), rest).a; RastersEdited(a) <==> IsSend(s) || !AnyEdited(a)
  {
    PartsAreGenuine(run, s, rest);
    FrozenIffSent(w, run, s, rest);
    RunThrough(w, run, s, rest);
    Sealed.SentCopyRastersEditedPages(w, run + [s] + rest);
    RastersIffFrozen(Run(Next(Run(w, run), s), rest).a);
  }

  function Editing(): seq<Step> {
    [Do(ActSigners([Alice()])), Do(ActPages(Pages.EditTexts([0])))]
  }

  const SELF_SIGNING := Do(ActSelfSign(0, 7))

  lemma SelfSignedDraft(w: World)
    requires w.a.status == Drafting && w.a.signers == [Alice()] && w.a.frozen == None
    requires |w.a.doc.pages| == 1 && w.a.doc.pages[0].edited
    ensures var a := Next(w, SELF_SIGNING).a;
            && a.status == OutForSignature && a.doc == w.a.doc
            && Presented(a) == [Pages.Vector(a.doc.pages[0])] && AnyEdited(a) && !RastersEdited(a)
  {
    var a := Next(w, SELF_SIGNING).a;
    assert a.frozen == None && a.doc.pages[0].edited;
    assert Presented(a)[0] == Pages.Vector(a.doc.pages[0]);
  }

  /** A draft with an edited page that its owner opens by self-signing presents that page
      unrasterised. */
  lemma SelfSigningPresentsTheEditedPage()
    ensures Init(Blank()) && Run(Blank(), Editing()).a.status == Drafting
    ensures var a := Next(Run(Blank(), Editing()), SELF_SIGNING).a;
            && a.status == OutForSignature && AnyEdited(a) && !RastersEdited(a)
            && Presented(a) == [Pages.Vector(a.doc.pages[0])]
  {
    var s := Editing();
    RunThen(Blank(), [], s[0]);
    RunThen(Blank(), [s[0]], s[1]);
    assert [] + [s[0]] == [s[0]] && [s[0]] + [s[1]] == s;
    SelfSignedDraft(Next(Next(Blank(), s[0]), s[1]));
  }
}
