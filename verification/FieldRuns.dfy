/** Fields stay on their pages over every sequence of editor calls. */
module FieldRuns {
  import opened Basics
  import opened Records
  import opened Pages

  predicate FieldsBelow(d: Draft) {
    forall i :: 0 <= i < |d.fields| ==> d.fields[i].page < OFFSET
  }

  /** The document never has more than 100000 pages. */
  ghost predicate FitsThroughout(d: Draft, ops: seq<Op>) {
    forall k :: 0 <= k <= |ops| ==> |Edited(d, ops[..k]).pages| <= OFFSET
  }

  predicate Strange(extra: seq<Page>, pages: seq<Page>) {
    forall i, j :: 0 <= i < |extra| && 0 <= j < |pages| ==> extra[i].id != pages[j].id
  }

  /** Appended pages are new: no page that the document has, or once had, comes back. */
  ghost predicate NewPages(d: Draft, ops: seq<Op>) {
    forall j, k :: 0 <= j <= k < |ops| ==> AppendsNew(ops[k], Edited(d, ops[..j]).pages)
  }

  predicate AppendsNew(op: Op, pages: seq<Page>) {
    op.AddPages? ==> DistinctPages(op.extra) && Strange(op.extra, pages)
  }

  function Step(d: Draft, op: Op): Draft {
    match Apply(d, op)
    case None => d
    case Some(e) => e
  }

  predicate HasPage(pages: seq<Page>, id: nat) {
    exists i :: 0 <= i < |pages| && pages[i].id == id
  }

  lemma PageOfDelete(d: Draft, page: int, i: nat)
    requires 0 <= page < |d.pages| && i < |PagesDeleted(d.pages, page)|
    ensures BeforeDelete(page, i) < |d.pages| && PagesDeleted(d.pages, page)[i] == d.pages[BeforeDelete(page, i)]
  {
  }

  lemma PageOfReorder(d: Draft, order: seq<int>, i: nat)
    requires IsPermutation(order, |d.pages|) && i < |order|
    ensures Within(order, |d.pages|) && 0 <= order[i] < |d.pages| && PagesReordered(d.pages, order)[i] == d.pages[order[i]]
  {
    PermutationFacts(order, |d.pages|);
  }

  /** The page at place `i` after a call was in the document before it, or was appended by it. */
  lemma PageComesFrom(d: Draft, op: Op, i: nat)
    requires Apply(d, op).Some? && i < |Apply(d, op).value.pages|
    ensures var id := Apply(d, op).value.pages[i].id; HasPage(d.pages, id) || (op.AddPages? && HasPage(op.extra, id))
  {
    match op
    case DeletePage(page) => PageOfDelete(d, page, i);
    case ReorderPages(order) => PageOfReorder(d, order, i);
    case RotatePage(page, deg) => assert Apply(d, op).value.pages[i].id == d.pages[i].id;
    case AddPages(extra) => assert (d.pages + extra)[i] == if i < |d.pages| then d.pages[i] else extra[i - |d.pages|];
    case EditTexts(targets) => assert Apply(d, op).value.pages[i].id == d.pages[i].id;
  }

  lemma PagesComeFrom(d: Draft, op: Op, id: nat)
    requires HasPage(Step(d, op).pages, id)
    ensures HasPage(d.pages, id) || (op.AddPages? && HasPage(op.extra, id))
  {
    if Apply(d, op).Some? {
      var i :| 0 <= i < |Apply(d, op).value.pages| && Apply(d, op).value.pages[i].id == id;
      PageComesFrom(d, op, i);
    }
  }

  lemma StepKeepsDistinct(d: Draft, op: Op)
    requires DistinctPages(d.pages)
    requires op.AddPages? ==> DistinctPages(op.extra) && Strange(op.extra, d.pages)
    ensures DistinctPages(Step(d, op).pages)
  {
    if op.ReorderPages? && IsPermutation(op.order, |d.pages|) {
      PermutationFacts(op.order, |d.pages|);
    }
  }

  lemma StepKeepsBelow(d: Draft, op: Op)
    requires FieldsBelow(d) && |d.pages| <= OFFSET
    ensures FieldsBelow(Step(d, op))
  {
    if Apply(d, op).Some? {
      match op
      case DeletePage(page) =>
        var kept := Filter(d.fields, (f: Field) => f.page != page);
        assert forall i :: 0 <= i < |kept| ==> kept[i] in kept && kept[i] in d.fields;
      case ReorderPages(order) =>
        ReorderIsPermutation(d.fields, order, Range(|d.pages|));
      case _ =>
    }
  }

  lemma StepKeepsFields(d: Draft, op: Op)
    requires DistinctPages(d.pages) && FieldsBelow(d) && |d.pages| <= OFFSET
    ensures FieldsStay(d, Step(d, op)) && FieldsSurvive(d, Step(d, op))
  {
    if Apply(d, op).Some? {
      ApplyKeepsFieldsOnPages(d, op);
    } else {
      SameKeepsFields(d);
    }
  }

  lemma SameKeepsFields(d: Draft)
    ensures FieldsStay(d, d) && FieldsSurvive(d, d)
  {
    forall f | f in d.fields
      ensures CameFrom(d, d, f, f)
    {
    }
  }

  lemma StayCompose(d: Draft, m: Draft, e: Draft)
    requires FieldsStay(d, m) && FieldsStay(m, e)
    ensures FieldsStay(d, e)
  {
    forall f | f in e.fields
      ensures exists g :: CameFrom(d, e, g, f)
    {
      var h :| CameFrom(m, e, h, f);
      var g :| CameFrom(d, m, g, h);
      assert CameFrom(d, e, g, f);
    }
  }

  lemma SurviveCompose(d: Draft, m: Draft, e: Draft)
    requires FieldsSurvive(d, m) && FieldsSurvive(m, e)
    requires forall id :: HasPage(d.pages, id) && HasPage(e.pages, id) ==> HasPage(m.pages, id)
    ensures FieldsSurvive(d, e)
  {
    forall g | g in d.fields && Under(d, g).Some? && exists p :: p in e.pages && p.id == Under(d, g).value
      ensures exists f :: f in e.fields && f.id == g.id && Under(e, f) == Under(d, g)
    {
      var id := Under(d, g).value;
      var p :| p in e.pages && p.id == id;
      var i :| 0 <= i < |e.pages| && e.pages[i] == p;
      assert HasPage(e.pages, id) && HasPage(d.pages, id);
      var j :| 0 <= j < |m.pages| && m.pages[j].id == id;
      assert m.pages[j] in m.pages;
      var h :| h in m.fields && h.id == g.id && Under(m, h) == Under(d, g);
    }
  }

  lemma PrefixFits(d: Draft, ops: seq<Op>)
    requires ops != [] && FitsThroughout(d, ops)
    ensures FitsThroughout(d, ops[..|ops| - 1])
  {
    var init := ops[..|ops| - 1];
    forall k | 0 <= k <= |init|
      ensures |Edited(d, init[..k]).pages| <= OFFSET
    {
      assert init[..k] == ops[..k];
    }
  }

  lemma PrefixNew(d: Draft, ops: seq<Op>)
    requires ops != [] && NewPages(d, ops)
    ensures NewPages(d, ops[..|ops| - 1])
  {
    var init := ops[..|ops| - 1];
    forall j, k | 0 <= j <= k < |init|
      ensures AppendsNew(init[k], Edited(d, init[..j]).pages)
    {
      assert init[..j] == ops[..j];
      assert init[k] == ops[k];
      assert AppendsNew(ops[k], Edited(d, ops[..j]).pages);
    }
  }

  /** What the last call appends is strange to the document before it, and to the first one. */
  lemma LastAppendsNew(d: Draft, ops: seq<Op>)
    requires ops != [] && NewPages(d, ops) && ops[|ops| - 1].AddPages?
    ensures DistinctPages(ops[|ops| - 1].extra)
    ensures Strange(ops[|ops| - 1].extra, Edited(d, ops[..|ops| - 1]).pages) && Strange(ops[|ops| - 1].extra, d.pages)
  {
    assert ops[..0] == [];
    assert AppendsNew(ops[|ops| - 1], Edited(d, ops[..0]).pages);
    assert AppendsNew(ops[|ops| - 1], Edited(d, ops[..|ops| - 1]).pages);
  }

  lemma {:induction false} EditedFacts(d: Draft, ops: seq<Op>)
    requires DistinctPages(d.pages) && FieldsBelow(d) && FitsThroughout(d, ops) && NewPages(d, ops)
    ensures DistinctPages(Edited(d, ops).pages) && FieldsBelow(Edited(d, ops)) && |Edited(d, ops).pages| <= OFFSET
  {
    assert ops[..|ops|] == ops;
    if ops != [] {
      var init, last := ops[..|ops| - 1], ops[|ops| - 1];
      PrefixFits(d, ops);
      PrefixNew(d, ops);
      EditedFacts(d, init);
      if last.AddPages? {
        LastAppendsNew(d, ops);
      }
      StepKeepsDistinct(Edited(d, init), last);
      StepKeepsBelow(Edited(d, init), last);
    }
  }

  lemma LastKeepsOldPages(d: Draft, ops: seq<Op>, id: nat)
    requires ops != [] && NewPages(d, ops)
    requires HasPage(d.pages, id) && HasPage(Edited(d, ops).pages, id)
    ensures HasPage(Edited(d, ops[..|ops| - 1]).pages, id)
  {
    PagesComeFrom(Edited(d, ops[..|ops| - 1]), ops[|ops| - 1], id);
    if ops[|ops| - 1].AddPages? {
      LastAppendsNew(d, ops);
    }
  }

  /** Over every sequence of editor calls, a field placed on a page of the document sits on that
      very page for as long as the page is there, and every such field is still there with it. */
  lemma {:induction false} EditedKeepsFieldsOnPages(d: Draft, ops: seq<Op>)
    requires DistinctPages(d.pages) && FieldsBelow(d) && FitsThroughout(d, ops) && NewPages(d, ops)
    ensures FieldsStay(d, Edited(d, ops)) && FieldsSurvive(d, Edited(d, ops))
  {
    if ops == [] {
      SameKeepsFields(d);
    } else {
      var init := ops[..|ops| - 1];
      var m := Edited(d, init);
      PrefixFits(d, ops);
      PrefixNew(d, ops);
      EditedKeepsFieldsOnPages(d, init);
      EditedFacts(d, init);
      StepKeepsFields(m, ops[|ops| - 1]);
      forall id | HasPage(d.pages, id) && HasPage(Edited(d, ops).pages, id)
        ensures HasPage(m.pages, id)
      {
        LastKeepsOldPages(d, ops, id);
      }
      StayCompose(d, m, Edited(d, ops));
      SurviveCompose(d, m, Edited(d, ops));
    }
  }
}
