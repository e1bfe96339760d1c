/** The draft editor: page operations and the three records they must keep in step, the
    pages, the fields placed on them and the `edited_pages` column (sign/esign.py), over the
    page engine of sign/pdf_ops.py and sign/pdf_editext.py. */
module Pages {
  import opened Basics
  import opened Records
  import Csv
  import Rotation

  /** A page: an identity nothing in the program ever changes, its rotation, and the mark
      that it once received an in-place text edit. */
  datatype Page = Page(id: nat, rot: int, edited: bool)

  /** A page of the copy that is sent: as authored, or rasterised. */
  datatype CopyPage = Vector(page: Page) | Raster(page: Page)

  datatype Draft = Draft(pages: seq<Page>, fields: seq<Field>, edited: string)

  const OFFSET := 100000

  // ---- the edited_pages column ------------------------------------------------

  lemma Largest(s: set<nat>) returns (m: nat)
    requires s != {}
    ensures m in s && forall x :: x in s ==> x <= m
  {
    m :| m in s;
    var rest := s - {m};
    if rest != {} {
      var n := Largest(rest);
      assert forall x :: x in s <==> x in rest || x == m;
      if m < n {
        m := n;
      }
    } else {
      assert s == {m};
    }
  }

  lemma MaxExists(s: set<nat>)
    requires s != {}
    ensures exists m :: m in s && forall x :: x in s ==> x <= m
  {
    var m := Largest(s);
  }

  /** `sorted(s)` of a set. */
  function Sorted(s: set<nat>): (r: seq<nat>)
    ensures forall x :: x in r <==> x in s
    ensures forall i, j :: 0 <= i < j < |r| ==> r[i] < r[j]
  {
    if s == {} then []
    else
      MaxExists(s);
      var m :| m in s && forall x :: x in s ==> x <= m;
      Sorted(s - {m}) + [m]
  }

  lemma DecodeEncodeSorted(s: set<nat>)
    ensures Csv.Decode(Csv.Encode(Sorted(s))) == s
  {
    Csv.DecodeInvertsEncode(Sorted(s));
  }

  /** `_remap_edited_pages_in_txn`: an empty column is left alone; a page mapped to nothing,
      or to a negative position, is dropped. */
  function RemapEdited(raw: string, mapper: nat -> Option<int>): string {
    if raw == "" then raw
    else Csv.Encode(Sorted(set i | i in Csv.Decode(raw) && mapper(i).Some? && mapper(i).value >= 0 :: mapper(i).value as nat))
  }

  /** The column with more pages in it. */
  function AddEdited(raw: string, targets: seq<int>): string {
    Csv.Encode(Sorted(Csv.Decode(raw) + set i | i in targets && i >= 0 :: i as nat))
  }

  function EditedPositions(pages: seq<Page>): set<nat> {
    set i | 0 <= i < |pages| && pages[i].edited
  }

  /** The column names exactly the current positions of the text-edited pages. */
  predicate InSync(d: Draft) {
    Csv.Decode(d.edited) == EditedPositions(d.pages)
  }

  lemma DecodeRemapped(raw: string, mapper: nat -> Option<int>)
    ensures Csv.Decode(RemapEdited(raw, mapper))
         == set i | i in Csv.Decode(raw) && mapper(i).Some? && mapper(i).value >= 0 :: mapper(i).value as nat
  {
    if raw == "" {
      assert Csv.Split(raw) == [""];
    } else {
      DecodeEncodeSorted(set i | i in Csv.Decode(raw) && mapper(i).Some? && mapper(i).value >= 0 :: mapper(i).value as nat);
    }
  }

  // ---- permutations -------------------------------------------------------------

  function Range(n: nat): (r: seq<int>)
    ensures |r| == n && forall i :: 0 <= i < n ==> r[i] == i
  {
    seq(n, i => i)
  }

  predicate Within(s: seq<int>, n: nat) {
    forall i :: 0 <= i < |s| ==> 0 <= s[i] < n
  }

  /** `sorted(order) == list(range(n))`. */
  predicate IsPermutation(order: seq<int>, n: nat) {
    multiset(order) == multiset(Range(n))
  }

  lemma RangeCount(n: nat, x: int)
    ensures multiset(Range(n))[x] == if 0 <= x < n then 1 else 0
  {
    if n > 0 {
      RangeCount(n - 1, x);
      assert Range(n) == Range(n - 1) + [n - 1];
    }
  }

  lemma CountedTwice(s: seq<int>, i: nat, j: nat)
    requires i < j < |s| && s[i] == s[j]
    ensures multiset(s)[s[i]] >= 2
  {
    assert s == s[..j] + s[j..];
    assert s[i] == s[..j][i] && s[j] == s[j..][0];
    assert s[i] in multiset(s[..j]) && s[i] in multiset(s[j..]);
  }

  lemma PermutationFacts(order: seq<int>, n: nat)
    requires IsPermutation(order, n)
    ensures |order| == n
    ensures Within(order, n)
    ensures forall x :: 0 <= x < n ==> x in order
    ensures forall i, j :: 0 <= i < j < n ==> order[i] != order[j]
  {
    assert |multiset(order)| == |multiset(Range(n))|;
    forall x
      ensures x in order <==> 0 <= x < n
    {
      RangeCount(n, x);
      assert x in order <==> multiset(order)[x] > 0;
    }
    forall i | 0 <= i < n
      ensures 0 <= order[i] < n
    {
      assert order[i] in order;
    }
    forall i, j | 0 <= i < j < n
      ensures order[i] != order[j]
    {
      if order[i] == order[j] {
        CountedTwice(order, i, j);
        RangeCount(n, order[i]);
      }
    }
  }

  predicate DistinctOrder(order: seq<int>) {
    forall i, j :: 0 <= i < j < |order| ==> order[i] != order[j]
  }

  lemma {:induction false} DistinctCount(order: seq<int>, x: int)
    requires DistinctOrder(order)
    ensures multiset(order)[x] == if x in order then 1 else 0
    ensures |set y | y in order| == |order|
  {
    if order == [] {
      assert (set y | y in order) == {};
    } else {
      var n := |order| - 1;
      DistinctCount(order[..n], x);
      assert order == order[..n] + [order[n]];
      assert order[n] !in order[..n];
      assert (set y | y in order) == (set y | y in order[..n]) + {order[n]};
    }
  }

  function Numbers(n: nat): (s: set<int>)
    ensures |s| == n && forall x :: x in s <==> 0 <= x < n
  {
    if n == 0 then {} else Numbers(n - 1) + {n - 1}
  }

  lemma SameSize(s: set<int>, t: set<int>)
    requires s <= t && |s| == |t|
    ensures s == t
  {
    assert t == s + (t - s) && |t - s| == 0;
  }

  lemma AllBelow(order: seq<int>, n: nat, x: int)
    requires |order| == n && Within(order, n) && DistinctOrder(order)
    ensures x in order <==> 0 <= x < n
  {
    var seen := set y | y in order;
    DistinctCount(order, x);
    SameSize(seen, Numbers(n));
    assert x in order <==> x in seen;
  }

  /** Every arrangement of the positions, each once, is one. */
  lemma ArrangementIsPermutation(order: seq<int>, n: nat)
    requires |order| == n && Within(order, n) && DistinctOrder(order)
    ensures IsPermutation(order, n)
  {
    forall x
      ensures multiset(order)[x] == multiset(Range(n))[x]
    {
      DistinctCount(order, x);
      RangeCount(n, x);
      AllBelow(order, n, x);
    }
  }

  /** Where a page goes: `new_of_old[old]`. */
  function NewIndex(order: seq<int>, was: int): (k: int)
    requires was in order
    ensures 0 <= k < |order| && order[k] == was
  {
    if order[0] == was then 0 else 1 + NewIndex(order[1..], was)
  }

  // ---- fields under the page operations ---------------------------------------------

  function ShiftUp(f: Field, page: int): Field {
    if f.page > page then f.(page := f.page - 1) else f
  }

  function FieldsAfterDelete(fields: seq<Field>, page: int): seq<Field> {
    MapSeq(Filter(fields, (f: Field) => f.page != page), (f: Field) => ShiftUp(f, page))
  }

  /** One `UPDATE agreement_fields SET page=? WHERE page=?`. */
  function UpdatePage(fields: seq<Field>, was: int, to: int): seq<Field> {
    MapSeq(fields, (f: Field) => if f.page == was then f.(page := to) else f)
  }

  /** The first phase of the reorder remap, for the new positions in `visit`, in that order. */
  function Offset(fields: seq<Field>, order: seq<int>, visit: seq<int>): seq<Field>
    requires Within(visit, |order|)
  {
    if visit == [] then fields
    else
      var k := visit[|visit| - 1];
      UpdatePage(Offset(fields, order, visit[..|visit| - 1]), order[k], k + OFFSET)
  }

  function Land(f: Field): Field {
    if f.page >= OFFSET then f.(page := f.page - OFFSET) else f
  }

  function FieldsAfterReorder(fields: seq<Field>, order: seq<int>, visit: seq<int>): seq<Field>
    requires Within(visit, |order|)
  {
    MapSeq(Offset(fields, order, visit), Land)
  }

  /** The simultaneous permutation of field pages, old to new. */
  function Permute(f: Field, order: seq<int>): Field {
    if f.page in order then f.(page := NewIndex(order, f.page)) else f
  }

  function FieldAfterRotate(f: Field, page: int, deg: int): Field {
    if f.page == page then f.(rect := Rotation.Remap(f.rect, deg)) else f
  }

  predicate Visited(order: seq<int>, visit: seq<int>, was: int) {
    exists k :: k in visit && 0 <= k < |order| && order[k] == was
  }

  /** After the updates for `visit`, a field has moved exactly when its page was visited. */
  lemma {:induction false} OffsetField(fields: seq<Field>, order: seq<int>, visit: seq<int>, i: nat)
    requires IsPermutation(order, |order|) && |order| <= OFFSET
    requires Within(visit, |order|)
    requires forall a, b :: 0 <= a < b < |visit| ==> visit[a] != visit[b]
    requires i < |fields|
    ensures |Offset(fields, order, visit)| == |fields|
    ensures Offset(fields, order, visit)[i] ==
            if Visited(order, visit, fields[i].page)
            then fields[i].(page := NewIndex(order, fields[i].page) + OFFSET) else fields[i]
  {
    PermutationFacts(order, |order|);
    if visit != [] {
      var k, before := visit[|visit| - 1], visit[..|visit| - 1];
      OffsetField(fields, order, before, i);
      var f := fields[i];
      assert visit == before + [k];
      if Visited(order, before, f.page) {
        var j :| j in before && order[j] == f.page;
        assert j in visit;
        assert Offset(fields, order, before)[i].page >= OFFSET;
      } else if f.page == order[k] {
        assert k in visit && NewIndex(order, f.page) == k;
      } else {
        assert !Visited(order, visit, f.page);
      }
    }
  }

  /** The two-phase remap is the simultaneous permutation, in whatever order the pages are
      visited, exactly when no field sits at page 100000 or above. */
  lemma ReorderIsPermutation(fields: seq<Field>, order: seq<int>, visit: seq<int>)
    requires IsPermutation(order, |order|) && |order| <= OFFSET
    requires IsPermutation(visit, |order|)
    requires Within(visit, |order|)
    ensures FieldsAfterReorder(fields, order, visit) == MapSeq(fields, (f: Field) => Permute(f, order))
       <==> forall f :: f in fields ==> f.page < OFFSET
  {
    PermutationFacts(order, |order|);
    PermutationFacts(visit, |order|);
    OffsetLength(fields, order, visit);
    var result := FieldsAfterReorder(fields, order, visit);
    forall i | 0 <= i < |fields|
      ensures result[i] == Permute(fields[i], order) <==> fields[i].page < OFFSET
    {
      OffsetField(fields, order, visit, i);
      var f := fields[i];
      if f.page in order {
        var k := NewIndex(order, f.page);
        assert k in visit && order[k] == f.page;
        assert Visited(order, visit, f.page);
      } else {
        assert !Visited(order, visit, f.page);
      }
    }
    if result == MapSeq(fields, (f: Field) => Permute(f, order)) {
      forall f | f in fields
        ensures f.page < OFFSET
      {
        var i :| 0 <= i < |fields| && fields[i] == f;
        assert result[i] == Permute(fields[i], order);
      }
    }
  }

  lemma {:induction false} OffsetLength(fields: seq<Field>, order: seq<int>, visit: seq<int>)
    requires Within(visit, |order|)
    ensures |Offset(fields, order, visit)| == |fields|
  {
    if visit != [] {
      OffsetLength(fields, order, visit[..|visit| - 1]);
    }
  }

  // ---- the operations -----------------------------------------------------------------

  datatype Op =
    | DeletePage(page: int)
    | ReorderPages(order: seq<int>)
    | RotatePage(page: int, deg: int)
    | AddPages(extra: seq<Page>)
    | EditTexts(targets: seq<int>)

  function PagesDeleted(pages: seq<Page>, page: int): seq<Page>
    requires 0 <= page < |pages|
  {
    pages[..page] + pages[page + 1..]
  }

  function PagesReordered(pages: seq<Page>, order: seq<int>): (r: seq<Page>)
    requires Within(order, |pages|)
    ensures |r| == |order| && forall i :: 0 <= i < |order| ==> r[i] == pages[order[i]]
  {
    seq(|order|, i requires 0 <= i < |order| => pages[order[i]])
  }

  function PagesRotated(pages: seq<Page>, page: int, deg: int): seq<Page>
    requires 0 <= page < |pages|
  {
    pages[page := pages[page].(rot := (pages[page].rot + deg) % 360)]
  }

  /** Replacing a run rewrites the page's content; the mark records that it happened. */
  function PagesEdited(pages: seq<Page>, targets: set<int>): (r: seq<Page>)
    ensures |r| == |pages|
    ensures forall i :: 0 <= i < |pages| ==> r[i] == if i in targets then pages[i].(edited := true) else pages[i]
  {
    seq(|pages|, i requires 0 <= i < |pages| => if i in targets then pages[i].(edited := true) else pages[i])
  }

  function DeletedIndex(page: int, i: nat): Option<int> {
    if i == page then None else Some(if i > page then i - 1 else i)
  }

  function ReorderedIndex(order: seq<int>, i: nat): Option<int> {
    if i in order then Some(NewIndex(order, i)) else None
  }

  predicate AllPages(targets: seq<int>, n: nat) {
    targets != [] && Within(targets, n)
  }

  /** One editor call on a draft; `None` is a refusal, which changes nothing. A text edit that
      the page engine refuses (no run, too long, rotated) is not among the calls. */
  function Apply(d: Draft, op: Op): Option<Draft> {
    var n := |d.pages|;
    match op
    case DeletePage(page) =>
      if !(0 <= page < n) || n <= 1 then None
      else Some(Draft(PagesDeleted(d.pages, page), FieldsAfterDelete(d.fields, page),
                      RemapEdited(d.edited, (i: nat) => DeletedIndex(page, i))))
    case ReorderPages(order) =>
      if !IsPermutation(order, n) then None
      else
        PermutationFacts(order, n);
        Some(Draft(PagesReordered(d.pages, order), FieldsAfterReorder(d.fields, order, Range(n)),
                   RemapEdited(d.edited, (i: nat) => ReorderedIndex(order, i))))
    case RotatePage(page, deg) =>
      var turn := deg % 360;
      if !(0 <= page < n) || (turn != 90 && turn != 180 && turn != 270) then None
      else Some(Draft(PagesRotated(d.pages, page, turn),
                      MapSeq(d.fields, (f: Field) => FieldAfterRotate(f, page, turn)), d.edited))
    case AddPages(extra) =>
      Some(Draft(d.pages + extra, d.fields, d.edited))
    case EditTexts(targets) =>
      if !AllPages(targets, n) then None
      else
        var now := set i | i in targets;
        Some(Draft(PagesEdited(d.pages, now), d.fields,
                   AddEdited(d.edited, targets)))
  }

  /** The call's arguments are good. */
  predicate Acceptable(n: nat, op: Op) {
    match op
    case DeletePage(page) => n > 1 && 0 <= page < n
    case ReorderPages(order) => |order| == n && Within(order, n) && DistinctOrder(order)
    case RotatePage(page, deg) => 0 <= page < n && deg % 90 == 0 && deg % 360 != 0
    case AddPages(_) => true
    case EditTexts(targets) => targets != [] && forall t :: t in targets ==> 0 <= t < n
  }

  function PageCount(n: nat, op: Op): int {
    match op
    case DeletePage(_) => n - 1
    case AddPages(extra) => n + |extra|
    case _ => n
  }

  /** The page at position `k` after the call. */
  function PageAfter(pages: seq<Page>, op: Op, k: nat): Page
    requires Acceptable(|pages|, op) && k < PageCount(|pages|, op)
  {
    match op
    case DeletePage(page) => if k < page then pages[k] else pages[k + 1]
    case ReorderPages(order) => pages[order[k]]
    case RotatePage(page, deg) => if k == page then pages[k].(rot := (pages[k].rot + deg) % 360) else pages[k]
    case AddPages(extra) => if k < |pages| then pages[k] else extra[k - |pages|]
    case EditTexts(targets) => if k in targets then pages[k].(edited := true) else pages[k]
  }

  lemma AcceptedIff(d: Draft, op: Op)
    ensures Apply(d, op).Some? <==> Acceptable(|d.pages|, op)
  {
    match op
    case ReorderPages(order) =>
      if Acceptable(|d.pages|, op) { ArrangementIsPermutation(order, |d.pages|); }
      if IsPermutation(order, |d.pages|) { PermutationFacts(order, |d.pages|); }
    case EditTexts(targets) =>
      if Acceptable(|d.pages|, op) { assert forall i :: 0 <= i < |targets| ==> targets[i] in targets; }
    case _ =>
  }

  lemma TurnsAdd(rot: int, deg: int)
    ensures (rot + deg % 360) % 360 == (rot + deg) % 360
  {
    assert rot + deg == rot + deg % 360 + (deg / 360) * 360;
  }

  /** An editor call is accepted exactly if its arguments are good, and then the page at every
      position is the one that the call is to put there. */
  lemma ApplyPlacesPages(d: Draft, op: Op)
    ensures Apply(d, op).Some? <==> Acceptable(|d.pages|, op)
    ensures Apply(d, op).Some? ==>
              && |Apply(d, op).value.pages| == PageCount(|d.pages|, op)
              && forall k :: 0 <= k < PageCount(|d.pages|, op) ==> Apply(d, op).value.pages[k] == PageAfter(d.pages, op, k)
  {
    AcceptedIff(d, op);
    if op.RotatePage? && Acceptable(|d.pages|, op) {
      TurnsAdd(d.pages[op.page].rot, op.deg);
    }
  }

  /** Pages brought in from another file have not been edited here. */
  predicate Genuine(op: Op) {
    op.AddPages? ==> forall p :: p in op.extra ==> !p.edited
  }

  /** Position `k` after a delete is position `k` or `k + 1` before it. */
  function BeforeDelete(page: int, k: nat): nat {
    if k < page then k else k + 1
  }

  lemma DeletedPositions(pages: seq<Page>, page: int, k: nat)
    requires 0 <= page < |pages|
    ensures k in EditedPositions(PagesDeleted(pages, page)) <==> BeforeDelete(page, k) in EditedPositions(pages)
    ensures forall i: nat :: DeletedIndex(page, i) == Some(k) <==> i == BeforeDelete(page, k)
  {
  }

  lemma DeleteInSync(d: Draft, page: int)
    requires InSync(d) && 0 <= page < |d.pages| && |d.pages| > 1
    ensures InSync(Apply(d, DeletePage(page)).value)
  {
    var mapper := (i: nat) => DeletedIndex(page, i);
    var e := Apply(d, DeletePage(page)).value;
    DecodeRemapped(d.edited, mapper);
    assert e.edited == RemapEdited(d.edited, mapper);
    forall k: nat
      ensures k in Csv.Decode(e.edited) <==> k in EditedPositions(e.pages)
    {
      DeletedPositions(d.pages, page, k);
      var i := BeforeDelete(page, k);
      assert mapper(i) == Some(k);
      assert k in Csv.Decode(e.edited) <==> i in Csv.Decode(d.edited);
    }
  }

  lemma ReorderInSync(d: Draft, order: seq<int>)
    requires InSync(d) && IsPermutation(order, |d.pages|)
    ensures InSync(Apply(d, ReorderPages(order)).value)
  {
    PermutationFacts(order, |d.pages|);
    var mapper := (i: nat) => ReorderedIndex(order, i);
    var after := PagesReordered(d.pages, order);
    DecodeRemapped(d.edited, mapper);
    forall k: nat
      ensures k in EditedPositions(after) <==>
              exists i :: i in EditedPositions(d.pages) && mapper(i) == Some(k)
    {
      if k in EditedPositions(after) {
        var i: nat := order[k];
        assert i in EditedPositions(d.pages) && NewIndex(order, i) == k && mapper(i) == Some(k);
      }
    }
  }

  lemma EditInSync(d: Draft, targets: seq<int>)
    requires InSync(d) && AllPages(targets, |d.pages|)
    ensures InSync(Apply(d, EditTexts(targets)).value)
  {
    var touched := set i | i in targets && i >= 0 :: i as nat;
    DecodeEncodeSorted(Csv.Decode(d.edited) + touched);
    forall i | i in targets
      ensures 0 <= i < |d.pages|
    {
    }
  }

  /** Every editor call keeps the column naming exactly the text-edited pages. */
  lemma ApplyInSync(d: Draft, op: Op)
    requires InSync(d) && Genuine(op) && Apply(d, op).Some?
    ensures InSync(Apply(d, op).value)
  {
    match op {
      case DeletePage(page) => DeleteInSync(d, page);
      case ReorderPages(order) => ReorderInSync(d, order);
      case RotatePage(page, deg) =>
        assert EditedPositions(Apply(d, op).value.pages) == EditedPositions(d.pages);
      case AddPages(extra) =>
        assert EditedPositions(d.pages + extra) == EditedPositions(d.pages);
      case EditTexts(targets) => EditInSync(d, targets);
    }
  }

  function Edited(d: Draft, ops: seq<Op>): Draft {
    if ops == [] then d
    else
      var before := Edited(d, ops[..|ops| - 1]);
      match Apply(before, ops[|ops| - 1])
      case None => before
      case Some(after) => after
  }

  lemma {:induction false} EditedInSync(d: Draft, ops: seq<Op>)
    requires InSync(d) && forall op :: op in ops ==> Genuine(op)
    ensures InSync(Edited(d, ops))
  {
    if ops != [] {
      EditedInSync(d, ops[..|ops| - 1]);
      var before := Edited(d, ops[..|ops| - 1]);
      if Apply(before, ops[|ops| - 1]).Some? {
        ApplyInSync(before, ops[|ops| - 1]);
      }
    }
  }

  // ---- the copy made at send --------------------------------------------------------------

  function Flattened(pages: seq<Page>, want: set<nat>): (copy: seq<CopyPage>)
    ensures |copy| == |pages|
    ensures forall i :: 0 <= i < |pages| ==> copy[i] == if i in want then Raster(pages[i]) else Vector(pages[i])
  {
    seq(|pages|, i requires 0 <= i < |pages| => if i in want then Raster(pages[i]) else Vector(pages[i]))
  }

  /** `send`'s freeze: refused when the column names a page the document does not have. */
  function Freeze(d: Draft): Option<seq<CopyPage>> {
    var edited := Sorted(Csv.Decode(d.edited));
    if exists i :: i in edited && !(0 <= i < |d.pages|) then None
    else Some(Flattened(d.pages, set i | i in edited))
  }

  /** It is refused exactly then. */
  lemma FreezeRefusesIff(d: Draft)
    ensures Freeze(d).None? <==> exists p: nat :: p in Csv.Decode(d.edited) && p >= |d.pages|
  {
  }

  /** After any sequence of editor calls the freeze succeeds, and it rasterises exactly the
      pages that were ever text-edited and are still there. */
  lemma FreezeRastersExactlyEditedPages(d: Draft, ops: seq<Op>)
    requires InSync(d) && forall op :: op in ops ==> Genuine(op)
    ensures var e := Edited(d, ops);
            Freeze(e).Some?
            && |Freeze(e).value| == |e.pages|
            && forall i :: 0 <= i < |e.pages| ==>
                 Freeze(e).value[i] == if e.pages[i].edited then Raster(e.pages[i]) else Vector(e.pages[i])
  {
    EditedInSync(d, ops);
  }

  // ---- fields stay on their pages ------------------------------------------------------------

  /** The identity of the page a field sits on, when there is one. */
  function Under(d: Draft, f: Field): Option<nat> {
    if 0 <= f.page < |d.pages| then Some(d.pages[f.page].id) else None
  }

  /** `g` is a field of `d` that became `f` without leaving its page. */
  ghost predicate CameFrom(d: Draft, e: Draft, g: Field, f: Field) {
    g in d.fields && g.id == f.id && (Under(d, g).Some? ==> Under(e, f) == Under(d, g))
  }

  ghost predicate FieldsStay(d: Draft, e: Draft) {
    forall f :: f in e.fields ==> exists g :: CameFrom(d, e, g, f)
  }

  /** No field left behind: a field whose page is still there is still there. */
  ghost predicate FieldsSurvive(d: Draft, e: Draft) {
    forall g :: g in d.fields && Under(d, g).Some? && (exists p :: p in e.pages && p.id == Under(d, g).value)
      ==> exists f :: f in e.fields && f.id == g.id && Under(e, f) == Under(d, g)
  }

  predicate DistinctPages(pages: seq<Page>) {
    forall i, j :: 0 <= i < j < |pages| ==> pages[i].id != pages[j].id
  }

  predicate FieldPagesBelowOffset(d: Draft) {
    |d.pages| <= OFFSET && forall f :: f in d.fields ==> f.page < OFFSET
  }

  lemma ShiftedFieldStays(d: Draft, page: int, g: Field)
    requires 0 <= page < |d.pages| && |d.pages| > 1 && Under(d, g).Some? && g.page != page
    ensures Under(Apply(d, DeletePage(page)).value, ShiftUp(g, page)) == Under(d, g)
  {
    assert Apply(d, DeletePage(page)).value.pages == PagesDeleted(d.pages, page);
  }

  lemma DeletedFieldCameFrom(d: Draft, page: int, g: Field)
    requires 0 <= page < |d.pages| && |d.pages| > 1 && g in d.fields && g.page != page
    ensures CameFrom(d, Apply(d, DeletePage(page)).value, g, ShiftUp(g, page))
  {
    if Under(d, g).Some? {
      ShiftedFieldStays(d, page, g);
    }
  }

  lemma DeleteFieldsStay(d: Draft, page: int)
    requires 0 <= page < |d.pages| && |d.pages| > 1
    ensures FieldsStay(d, Apply(d, DeletePage(page)).value)
  {
    var e := Apply(d, DeletePage(page)).value;
    var kept := Filter(d.fields, (f: Field) => f.page != page);
    forall f | f in e.fields
      ensures exists g :: CameFrom(d, e, g, f)
    {
      var i :| 0 <= i < |kept| && e.fields[i] == f;
      assert kept[i] in kept;
      DeletedFieldCameFrom(d, page, kept[i]);
    }
  }

  lemma DeletedFieldSurvives(d: Draft, page: int, g: Field) returns (f: Field)
    requires 0 <= page < |d.pages| && |d.pages| > 1 && DistinctPages(d.pages)
    requires g in d.fields && Under(d, g).Some?
    requires exists p :: p in PagesDeleted(d.pages, page) && p.id == Under(d, g).value
    ensures var e := Apply(d, DeletePage(page)).value; f in e.fields && f.id == g.id && Under(e, f) == Under(d, g)
  {
    var left := PagesDeleted(d.pages, page);
    var p :| p in left && p.id == Under(d, g).value;
    var j :| 0 <= j < |left| && left[j] == p;
    ShiftedFieldStays(d, page, g);
    f := ShiftUp(g, page);
  }

  lemma DeleteFieldsSurvive(d: Draft, page: int)
    requires 0 <= page < |d.pages| && |d.pages| > 1 && DistinctPages(d.pages)
    ensures FieldsSurvive(d, Apply(d, DeletePage(page)).value)
  {
    var e := Apply(d, DeletePage(page)).value;
    forall g | g in d.fields && Under(d, g).Some? && exists p :: p in e.pages && p.id == Under(d, g).value
      ensures exists f :: f in e.fields && f.id == g.id && Under(e, f) == Under(d, g)
    {
      var f := DeletedFieldSurvives(d, page, g);
    }
  }

  lemma DeleteKeepsFields(d: Draft, page: int)
    requires 0 <= page < |d.pages| && |d.pages| > 1 && DistinctPages(d.pages)
    ensures var e := Apply(d, DeletePage(page)).value; FieldsStay(d, e) && FieldsSurvive(d, e)
  {
    DeleteFieldsStay(d, page);
    DeleteFieldsSurvive(d, page);
  }

  lemma ReorderKeepsFields(d: Draft, order: seq<int>)
    requires IsPermutation(order, |d.pages|) && FieldPagesBelowOffset(d)
    ensures var e := Apply(d, ReorderPages(order)).value; FieldsStay(d, e) && FieldsSurvive(d, e)
  {
    var n := |d.pages|;
    PermutationFacts(order, n);
    ReorderIsPermutation(d.fields, order, Range(n));
    var e := Apply(d, ReorderPages(order)).value;
    assert e.fields == MapSeq(d.fields, (f: Field) => Permute(f, order));
    forall i | 0 <= i < |d.fields|
      ensures CameFrom(d, e, d.fields[i], e.fields[i])
    {
      assert d.fields[i] in d.fields;
    }
  }

  lemma OtherKeepsFields(d: Draft, op: Op)
    requires op.RotatePage? || op.AddPages? || op.EditTexts?
    requires Apply(d, op).Some?
    ensures var e := Apply(d, op).value; FieldsStay(d, e) && FieldsSurvive(d, e)
  {
    var e := Apply(d, op).value;
    forall i | 0 <= i < |d.fields|
      ensures CameFrom(d, e, d.fields[i], e.fields[i])
    {
      assert d.fields[i] in d.fields;
    }
  }

  /** Every editor call leaves each in-range field on the page it was placed on, and drops a
      field only together with its page. */
  lemma ApplyKeepsFieldsOnPages(d: Draft, op: Op)
    requires DistinctPages(d.pages) && FieldPagesBelowOffset(d) && Apply(d, op).Some?
    ensures var e := Apply(d, op).value; FieldsStay(d, e) && FieldsSurvive(d, e)
  {
    match op {
      case DeletePage(page) => DeleteKeepsFields(d, page);
      case ReorderPages(order) => ReorderKeepsFields(d, order);
      case _ => OtherKeepsFields(d, op);
    }
  }

  /** The accepted quarter turn of a page moves no mark: every field of the document stamps
      the same region of the same unrotated page before and after. */
  lemma RotateKeepsStamps(d: Draft, page: int, deg: int, i: nat, m: Rotation.Media, p: (real, real))
    requires Apply(d, RotatePage(page, deg)).Some?
    requires i < |d.fields| && 0 <= d.fields[i].page < |d.pages|
    requires Rotation.QuarterTurn(d.pages[d.fields[i].page].rot)
    ensures var e := Apply(d, RotatePage(page, deg)).value;
            |e.fields| == |d.fields|
            && e.fields[i].page == d.fields[i].page && |e.pages| == |d.pages|
            && (Rotation.Covers(d.fields[i].rect, d.pages[d.fields[i].page].rot, m, p)
                <==> Rotation.Covers(e.fields[i].rect, e.pages[e.fields[i].page].rot, m, p))
  {
    var f := d.fields[i];
    if f.page == page {
      Rotation.TurnKeepsStampedRegion(f.rect, d.pages[page].rot, deg % 360, m, p);
      assert (d.pages[page].rot + deg % 360) % 360 == PagesRotated(d.pages, page, deg % 360)[page].rot;
    }
  }
}
