/** Completed envelopes whose copy does not show a required signature, in the three ways that
    `Sealed.CompletedCopyIsWhatWasShown` leaves open. */
module Unshown {
  import opened Basics
  import opened Records
  import opened Envelope
  import opened Runs
  import opened Overrun
  import Csv
  import Pages
  import Sealed
  import Stamping
  import Submission

  /** A run of one signer with one field, who submits one value and whose seal goes through. */
  function Drafted(f: Field): seq<Step> {
    [Do(ActSigners([Alice()])), Do(ActFields([f])), Do(ActSend([7]))]
  }

  function Signing(f: Field, v: Value): seq<Step> {
    Drafted(f) + [SubmitForm(0, 0, FormOf(f, v), true), Count(0), ReadRow(0)]
  }

  function Whole(f: Field, v: Value): seq<Step> {
    Signing(f, v) + [ClaimSeal(0, 0.0)] + [FinishSeal(0)]
  }

  function FormOf(f: Field, v: Value): Form {
    [Entry(Name(f.id), v)]
  }

  predicate AliceHolds(a: Agreement) {
    && |a.signers| == 1 && a.sentAt == Some(0.0) && a.createdAt == 0.0 && !a.sequential
    && a.signers[0] == SendTo(Alice(), 7)
  }

  lemma AfterSend(f: Field) returns (w: World)
    ensures w == Run(Blank(), Drafted(f))
    ensures w.clock == 0.0 && w.procs == map[] && w.a.status == OutForSignature
    ensures AliceHolds(w.a) && w.a.doc.fields == [f] && |Presented(w.a)| == 1
  {
    var s := Drafted(f);
    FreezeBlank();
    var w1 := Next(Blank(), s[0]);
    assert w1.a.signers == [Alice()];
    var w2 := Next(w1, s[1]);
    assert Pages.Freeze(w2.a.doc) == Pages.Freeze(Blank().a.doc);
    w := Next(w2, s[2]);
    assert w.a.signers == [SendTo(Alice(), 7)];
    RunThenThree(Blank(), [], s[0], s[1], s[2]);
    assert s == [] + [s[0], s[1], s[2]];
  }

  lemma FormIsRead(f: Field, v: Value)
    ensures Lookup(FormOf(f, v), f.id) == Some(v)
    ensures WriteValue(f, 0, FormOf(f, v)) == if f.owner == Some(0) then f.(value := v) else f
  {
    Submission.FindAt(FormOf(f, v), 0);
    Submission.LastNamedAt(FormOf(f, v), f.id, 0);
  }

  lemma Accepted(a: Agreement, f: Field, v: Value)
    requires AliceHolds(a) && a.status == OutForSignature && a.doc.fields == [f]
    requires RequiredOf(f, 0) && Accepts(f.kind, v)
    ensures Submit(a, 0, FormOf(f, v), true, 0.0) == Recorded(Sign(a, 0, FormOf(f, v)))
    ensures Sign(a, 0, FormOf(f, v)).doc.fields == [f.(value := v)]
  {
    FormIsRead(f, v);
    assert FieldPasses(f, FormOf(f, v));
    assert GatePasses(a.doc.fields, 0, FormOf(f, v));
    assert SubmitGate(a, 0, FormOf(f, v), true, 0.0).None?;
  }

  /** The call after a submission, with everyone signed and no lock in the way. */
  lemma CountAndRead(w: World)
    requires w.procs == map[0 := Counting(false)] && w.a.status == OutForSignature
    requires AllSigned(w.a.signers) && !AnyLockUnmet(w.a.signers)
    ensures Next(Next(w, Count(0)), ReadRow(0)) == At(w, 0, HasRead(w.a))
  {
    assert Next(w, Count(0)) == At(w, 0, Called);
  }

  lemma ClaimAndFinish(w: World)
    requires w.clock == 0.0 && w.a.status == OutForSignature && w.procs == map[0 := HasRead(w.a)]
    ensures var a := Next(Next(w, ClaimSeal(0, 0.0)), FinishSeal(0)).a;
            && a.status == Completed && a.executed == Some(ExecutedFrom(w.a))
            && a.signers == w.a.signers && a.doc == w.a.doc
  {
    assert Claimable(w.a, 0.0);
  }

  lemma SignedByAlice(a: Agreement, f: Field, v: Value)
    requires AliceHolds(a)
    ensures var b := Sign(a, 0, FormOf(f, v));
            && |b.signers| == 1 && AllSigned(b.signers) && !AnyLockUnmet(b.signers)
            && b.status == a.status && b.frozen == a.frozen && b.doc.pages == a.doc.pages
  {
  }

  lemma AfterReading(f: Field, v: Value) returns (w: World)
    requires RequiredOf(f, 0) && Accepts(f.kind, v)
    ensures w == Run(Blank(), Signing(f, v))
    ensures w.clock == 0.0 && w.a.status == OutForSignature && w.procs == map[0 := HasRead(w.a)]
    ensures |w.a.signers| == 1 && w.a.doc.fields == [f.(value := v)] && |Presented(w.a)| == 1
  {
    var w3 := AfterSend(f);
    var form := FormOf(f, v);
    Accepted(w3.a, f, v);
    SignedByAlice(w3.a, f, v);
    var w4 := Next(w3, SubmitForm(0, 0, form, true));
    assert w4 == At(w3.(a := Sign(w3.a, 0, form)), 0, Counting(false));
    CountAndRead(w4);
    w := At(w4, 0, HasRead(w4.a));
    RunThenThree(Blank(), Drafted(f), SubmitForm(0, 0, form, true), Count(0), ReadRow(0));
  }

  /** For every required field and every value the gate accepts for it, some run completes the
      envelope with that value in that field. */
  lemma CompletedWith(f: Field, v: Value) returns (a: Agreement)
    requires RequiredOf(f, 0) && Accepts(f.kind, v)
    ensures Init(Blank()) && Sealed.PlainForms(Whole(f, v)) && a == Run(Blank(), Whole(f, v)).a
    ensures a.status == Completed && a.executed.Some? && |a.executed.value.base| == 1
    ensures |a.signers| == 1 && a.doc.fields == [f.(value := v)]
  {
    var w6 := AfterReading(f, v);
    ClaimAndFinish(w6);
    RunThen(Blank(), Signing(f, v), ClaimSeal(0, 0.0));
    RunThen(Blank(), Signing(f, v) + [ClaimSeal(0, 0.0)], FinishSeal(0));
    a := Next(Next(w6, ClaimSeal(0, 0.0)), FinishSeal(0)).a;
  }

  /** That run's copy shows the field exactly when the general theorem says so. */
  lemma ShownInThatRun(f: Field, v: Value) returns (a: Agreement)
    requires RequiredOf(f, 0) && Accepts(f.kind, v)
    ensures Init(Blank()) && Sealed.PlainForms(Whole(f, v)) && a == Run(Blank(), Whole(f, v)).a
    ensures a.status == Completed && a.executed.Some? && f.(value := v) in a.doc.fields
    ensures Sealed.Shows(a.executed.value, f.(value := v)) <==>
              f.page == 0 && f.rect.w > 0.0 && f.rect.h > 0.0 && (Sealed.IsImage(f.kind) ==> v.drawable)
  {
    a := CompletedWith(f, v);
    Sealed.PlainFormsAreTestedLast(Blank(), Whole(f, v));
    Sealed.CompletedCopyIsWhatWasShown(Blank(), Whole(f, v));
    assert f.(value := v) in a.doc.fields && RequiredOf(f.(value := v), 0);
  }

  /** A data URL with a blank in front, accepted once trimmed. */
  function Untrimmed(url: string): Value {
    Value([' '] + url, false, true, false, false)
  }

  /** What decodes the payload of the URL, and not the whole text, reads it so. */
  lemma UntrimmedIsRead(url: string, valid: string -> bool)
    requires Stamping.StartsWith(url, "data:") && Csv.Strip(url) == url
    requires valid(Stamping.Payload(url)) && !valid([' '] + url)
    ensures Stamping.ReadBy(Untrimmed(url), valid)
  {
    var text := [' '] + url;
    assert text[1..] == url && text[..5][0] == ' ';
    assert Csv.Strip(text) == url;
    assert Stamping.Payload(text) == text;
  }

  lemma {:induction false} AfterFirstComma(a: string, b: string)
    requires ',' !in a
    ensures Stamping.AfterComma(a + [','] + b) == b
  {
    if a == [] {
      assert (a + [','] + b)[1..] == b;
    } else {
      AfterFirstComma(a[1..], b);
      assert (a + [','] + b)[1..] == a[1..] + [','] + b;
    }
  }

  /** There are such texts, and what decodes them. */
  lemma SuchTextsExist() returns (url: string, valid: string -> bool)
    ensures Stamping.StartsWith(url, "data:") && Csv.Strip(url) == url
    ensures valid(Stamping.Payload(url)) && !valid([' '] + url)
  {
    url, valid := "data:" + [','] + "x", (s: string) => s == "x";
    assert url[..5] == "data:" && url[5] == ',' && url[0] == 'd' && url[6] == 'x' && |url| == 7;
    AfterFirstComma("data:", "x");
    assert |[' '] + url| == 8;
  }

  lemma UntrimmedLeavesNoMark(url: string, f: Field)
    requires Stamping.StartsWith(url, "data:") && Sealed.IsImage(f.kind)
    ensures Stamping.MarkOf(f.(value := Untrimmed(url))) == Stamping.Nothing
  {
    assert url[..5][0] == 'd';
    assert ([' '] + url)[1..] == url;
    assert SkipSpaces([' '] + url) == SkipSpaces(url) == url;
  }

  /** A required signature sent as a data URL with a leading blank passes the gate, the
      envelope completes, and its copy has no signature there, nor anything else in the box. */
  lemma LeadingBlankLosesTheSignature(url: string, valid: string -> bool, f: Field) returns (a: Agreement)
    requires Stamping.StartsWith(url, "data:") && Csv.Strip(url) == url
    requires valid(Stamping.Payload(url)) && !valid([' '] + url)
    requires RequiredOf(f, 0) && Sealed.IsImage(f.kind)
    ensures Stamping.ReadBy(Untrimmed(url), valid)
    ensures Init(Blank()) && Sealed.PlainForms(Whole(f, Untrimmed(url)))
    ensures a == Run(Blank(), Whole(f, Untrimmed(url))).a
    ensures a.status == Completed && a.executed.Some? && f.(value := Untrimmed(url)) in a.doc.fields
    ensures forall mark :: Stamping.Stamp(f.(value := Untrimmed(url)), mark) in a.executed.value.stamps ==> mark == Stamping.Nothing
  {
    UntrimmedIsRead(url, valid);
    UntrimmedLeavesNoMark(url, f);
    a := CompletedWith(f, Untrimmed(url));
    forall mark | Stamping.Stamp(f.(value := Untrimmed(url)), mark) in a.executed.value.stamps
      ensures mark == Stamping.Nothing
    {
      Sealed.StampedOnlyIfPlaceable(Blank(), Whole(f, Untrimmed(url)), f.(value := Untrimmed(url)), mark);
    }
  }

  /** An envelope also completes with a required field on a page that the document does not
      have, or in an empty box: nothing of the field is stamped, not even a caption. */
  lemma OffTheDocumentLosesTheField(f: Field, v: Value) returns (a: Agreement)
    requires RequiredOf(f, 0) && Accepts(f.kind, v)
    requires f.page != 0 || f.rect.w <= 0.0 || f.rect.h <= 0.0
    ensures Init(Blank()) && Sealed.PlainForms(Whole(f, v)) && a == Run(Blank(), Whole(f, v)).a
    ensures a.status == Completed && a.executed.Some? && f.(value := v) in a.doc.fields
    ensures forall mark :: Stamping.Stamp(f.(value := v), mark) !in a.executed.value.stamps
  {
    a := CompletedWith(f, v);
    forall mark
      ensures Stamping.Stamp(f.(value := v), mark) !in a.executed.value.stamps
    {
      Sealed.StampedOnlyIfPlaceable(Blank(), Whole(f, v), f.(value := v), mark);
    }
  }
}
