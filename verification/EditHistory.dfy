/** Which pages are rasterised, told from the history of editor calls and not from the marks:
    the pages whose text some accepted call replaced, and no others. */
module EditHistory {
  import opened Pages
  import opened FieldRuns
  import Envelope
  import Runs
  import Lease
  import Sealed

  /** The identities of the pages whose text the call replaces: a batch is accepted whole, if
      it is not empty and every page it names is in the document. */
  function Hits(pages: seq<Page>, op: Op): set<nat> {
    if op.EditTexts? && op.targets != [] && forall t :: t in op.targets ==> 0 <= t < |pages|
    then set i | 0 <= i < |pages| && i in op.targets :: pages[i].id
    else {}
  }

  /** The identities of all pages whose text the calls replaced, each read off the document as it
      was before its call. */
  function Targeted(d: Draft, ops: seq<Op>): set<nat> {
    if ops == [] then {}
    else Targeted(d, ops[..|ops| - 1]) + Hits(Edited(d, ops[..|ops| - 1]).pages, ops[|ops| - 1])
  }

  function Marked(pages: seq<Page>): set<nat> {
    set i | 0 <= i < |pages| && pages[i].edited :: pages[i].id
  }

  /** The marks say which identities are in `ids`. */
  predicate MarksAre(pages: seq<Page>, ids: set<nat>) {
    forall i :: 0 <= i < |pages| ==> (pages[i].edited <==> pages[i].id in ids)
  }

  predicate NoneIn(extra: seq<Page>, ids: set<nat>) {
    forall i :: 0 <= i < |extra| ==> extra[i].id !in ids
  }

  lemma AllPagesIsAll(targets: seq<int>, n: nat)
    ensures AllPages(targets, n) <==> targets != [] && forall t :: t in targets ==> 0 <= t < n
  {
    if targets != [] && forall t :: t in targets ==> 0 <= t < n {
      assert forall k :: 0 <= k < |targets| ==> targets[k] in targets;
    }
  }

  lemma EditMarks(d: Draft, targets: seq<int>, ids: set<nat>)
    requires DistinctPages(d.pages) && MarksAre(d.pages, ids)
    ensures MarksAre(Step(d, EditTexts(targets)).pages, ids + Hits(d.pages, EditTexts(targets)))
  {
    AllPagesIsAll(targets, |d.pages|);
  }

  lemma StepMarks(d: Draft, op: Op, ids: set<nat>)
    requires DistinctPages(d.pages) && MarksAre(d.pages, ids) && Genuine(op)
    requires op.AddPages? ==> NoneIn(op.extra, ids)
    ensures MarksAre(Step(d, op).pages, ids + Hits(d.pages, op))
  {
    match op
    case EditTexts(targets) => EditMarks(d, targets, ids);
    case ReorderPages(order) => if IsPermutation(order, |d.pages|) { PermutationFacts(order, |d.pages|); }
    case AddPages(extra) => assert forall i :: 0 <= i < |extra| ==> extra[i] in extra;
    case _ =>
  }

  lemma {:induction false} DistinctThroughout(d: Draft, ops: seq<Op>)
    requires DistinctPages(d.pages) && NewPages(d, ops)
    ensures DistinctPages(Edited(d, ops).pages)
  {
    if ops != [] {
      PrefixNew(d, ops);
      DistinctThroughout(d, ops[..|ops| - 1]);
      if ops[|ops| - 1].AddPages? {
        LastAppendsNew(d, ops);
      }
      StepKeepsDistinct(Edited(d, ops[..|ops| - 1]), ops[|ops| - 1]);
    }
  }

  /** Pages strange to every earlier document were never edited here. */
  lemma {:induction false} StrangeNeverTargeted(d: Draft, ops: seq<Op>, extra: seq<Page>)
    requires forall j :: 0 <= j <= |ops| ==> Strange(extra, Edited(d, ops[..j]).pages)
    ensures NoneIn(extra, Targeted(d, ops))
  {
    if ops != [] {
      var init := ops[..|ops| - 1];
      forall j | 0 <= j <= |init|
        ensures Strange(extra, Edited(d, init[..j]).pages)
      {
        assert init[..j] == ops[..j];
      }
      StrangeNeverTargeted(d, init, extra);
      assert ops[..|init|] == init;
    }
  }

  lemma StrangeAt(d: Draft, ops: seq<Op>, j: nat)
    requires ops != [] && NewPages(d, ops) && ops[|ops| - 1].AddPages? && j < |ops|
    ensures Strange(ops[|ops| - 1].extra, Edited(d, ops[..|ops| - 1][..j]).pages)
  {
    assert ops[..|ops| - 1][..j] == ops[..j];
    assert AppendsNew(ops[|ops| - 1], Edited(d, ops[..j]).pages);
  }

  lemma StrangeIsUnmarked(extra: seq<Page>, pages: seq<Page>)
    requires Strange(extra, pages)
    ensures NoneIn(extra, Marked(pages))
  {
  }

  lemma LastIsStrange(d: Draft, ops: seq<Op>)
    requires ops != [] && NewPages(d, ops) && ops[|ops| - 1].AddPages?
    ensures NoneIn(ops[|ops| - 1].extra, Marked(d.pages) + Targeted(d, ops[..|ops| - 1]))
  {
    var init, extra := ops[..|ops| - 1], ops[|ops| - 1].extra;
    forall j | 0 <= j <= |init|
      ensures Strange(extra, Edited(d, init[..j]).pages)
    {
      StrangeAt(d, ops, j);
    }
    StrangeNeverTargeted(d, init, extra);
    StrangeAt(d, ops, 0);
    StrangeIsUnmarked(extra, d.pages);
  }

  lemma {:induction false} MarksAreHistory(d: Draft, ops: seq<Op>)
    requires DistinctPages(d.pages) && NewPages(d, ops) && forall op :: op in ops ==> Genuine(op)
    ensures MarksAre(Edited(d, ops).pages, Marked(d.pages) + Targeted(d, ops))
  {
    if ops != [] {
      var init, last := ops[..|ops| - 1], ops[|ops| - 1];
      PrefixNew(d, ops);
      MarksAreHistory(d, init);
      DistinctThroughout(d, init);
      if last.AddPages? {
        LastIsStrange(d, ops);
      }
      StepMarks(Edited(d, init), last, Marked(d.pages) + Targeted(d, init));
      assert Marked(d.pages) + Targeted(d, ops) == Marked(d.pages) + Targeted(d, init) + Hits(Edited(d, init).pages, last);
    }
  }

  /** After any sequence of editor calls, `send` rasterises a page exactly if an accepted call
      replaced text on it, or it was marked at the start. */
  lemma RasterisedIffTextReplaced(d: Draft, ops: seq<Op>, i: nat)
    requires InSync(d) && DistinctPages(d.pages) && NewPages(d, ops) && forall op :: op in ops ==> Genuine(op)
    requires i < |Edited(d, ops).pages|
    ensures var e, page := Edited(d, ops), Edited(d, ops).pages[i];
            && Freeze(e).Some? && |Freeze(e).value| == |e.pages|
            && Freeze(e).value[i] == if page.id in Marked(d.pages) + Targeted(d, ops) then Raster(page) else Vector(page)
  {
    MarksAreHistory(d, ops);
    FreezeRastersExactlyEditedPages(d, ops);
  }

  // Over runs of an envelope

  function OpOf(w: Runs.World, s: Runs.Step): seq<Op> {
    if s.Do? && s.act.ActPages? && w.a.status == Envelope.Drafting then [s.act.op] else []
  }

  /** The editor calls of a run: those made while the envelope was a draft. */
  function DraftOps(w: Runs.World, steps: seq<Runs.Step>): seq<Op> {
    if steps == [] then []
    else DraftOps(w, steps[..|steps| - 1]) + OpOf(Runs.Run(w, steps[..|steps| - 1]), steps[|steps| - 1])
  }

  /** The same pages and the same column. */
  predicate SamePages(a: Draft, b: Draft) {
    a.pages == b.pages && a.edited == b.edited
  }

  lemma EditedThen(d: Draft, ops: seq<Op>, op: Op)
    ensures Edited(d, ops + [op]) == Step(Edited(d, ops), op)
  {
    assert (ops + [op])[..|ops|] == ops;
  }

  lemma StepSamePages(a: Draft, b: Draft, op: Op)
    requires SamePages(a, b)
    ensures SamePages(Step(a, op), Step(b, op))
  {
  }

  lemma DraftActPages(a: Envelope.Agreement, act: Runs.Act, now: real)
    requires a.status == Envelope.Drafting
    ensures var b := Runs.Acted(a, act, now);
            if act.ActPages? then b.doc == Step(a.doc, act.op) else SamePages(b.doc, a.doc)
  {
  }

  lemma DraftStepPages(w: Runs.World, s: Runs.Step, d: Draft, ops: seq<Op>)
    requires Lease.Orderly(w) && w.a.status == Envelope.Drafting && SamePages(w.a.doc, Edited(d, ops))
    ensures SamePages(Runs.Next(w, s).a.doc, Edited(d, ops + OpOf(w, s)))
  {
    assert ops + [] == ops;
    if s.Do? {
      DraftActPages(w.a, s.act, w.clock);
      if s.act.ActPages? {
        EditedThen(d, ops, s.act.op);
        StepSamePages(w.a.doc, Edited(d, ops), s.act.op);
      }
    } else {
      Sealed.DraftCallsNothing(w, s);
    }
  }

  lemma {:induction false} RunPages(w: Runs.World, steps: seq<Runs.Step>)
    requires Runs.Init(w)
    ensures SamePages(Runs.Run(w, steps).a.doc, Edited(w.a.doc, DraftOps(w, steps)))
  {
    if steps != [] {
      var init, s := steps[..|steps| - 1], steps[|steps| - 1];
      var before := Runs.Run(w, init);
      RunPages(w, init);
      Lease.RunOrderly(w, init);
      if before.a.status == Envelope.Drafting {
        DraftStepPages(before, s, w.a.doc, DraftOps(w, init));
      } else {
        Sealed.NextKept(before, s);
        assert DraftOps(w, init) + [] == DraftOps(w, init);
      }
    }
  }

  lemma {:induction false} DraftOpsGenuine(w: Runs.World, steps: seq<Runs.Step>)
    requires Sealed.GenuinePages(steps)
    ensures forall op :: op in DraftOps(w, steps) ==> Genuine(op)
  {
    if steps != [] {
      DraftOpsGenuine(w, steps[..|steps| - 1]);
    }
  }

  /** In every run, the copy that was sent rasterises exactly the pages whose text was replaced
      while the envelope was a draft. */
  lemma SentCopyRastersReplacedText(w: Runs.World, steps: seq<Runs.Step>)
    requires Runs.Init(w) && Sealed.GenuinePages(steps)
    requires DistinctPages(w.a.doc.pages) && NewPages(w.a.doc, DraftOps(w, steps))
    ensures var a := Runs.Run(w, steps).a;
            a.frozen.Some? ==>
              && |a.frozen.value| == |a.doc.pages|
              && forall i :: 0 <= i < |a.doc.pages| ==>
                   a.frozen.value[i] == if a.doc.pages[i].id in Targeted(w.a.doc, DraftOps(w, steps))
                                        then Raster(a.doc.pages[i]) else Vector(a.doc.pages[i])
  {
    RunPages(w, steps);
    DraftOpsGenuine(w, steps);
    MarksAreHistory(w.a.doc, DraftOps(w, steps));
    Sealed.SentCopyRastersEditedPages(w, steps);
    assert forall i :: 0 <= i < |w.a.doc.pages| ==> w.a.doc.pages[i] in w.a.doc.pages;
    assert Marked(w.a.doc.pages) == {};
  }
}
