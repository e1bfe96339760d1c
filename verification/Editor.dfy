/** The editor's calls as the program runs them, on the stored rows of one draft, each proved
    against the operation it stands for in module Pages. */
module Editor {
  import opened Basics
  import opened Records
  import opened Pages
  import Csv
  import Rotation

  /** `pdf_ops.delete_pages` for one page: append every survivor to a new document. */
  method CopyWithout(src: seq<Page>, page: int) returns (dst: seq<Page>)
    requires 0 <= page < |src|
    ensures dst == PagesDeleted(src, page)
  {
    dst := [];
    for i := 0 to |src|
      invariant dst == if i <= page then src[..i] else src[..page] + src[page + 1..i]
    {
      if i != page {
        dst := dst + [src[i]];
      }
    }
  }

  /** `pdf_ops.reorder_pages`: append the pages in the order asked for. */
  method CopyInOrder(src: seq<Page>, order: seq<int>) returns (dst: seq<Page>)
    requires Within(order, |src|)
    ensures dst == PagesReordered(src, order)
  {
    dst := [];
    for k := 0 to |order|
      invariant |dst| == k && forall i :: 0 <= i < k ==> dst[i] == src[order[i]]
    {
      dst := dst + [src[order[k]]];
    }
  }

  /** `flatten_pages`: rasterise the wanted pages, pass every other page through. */
  method FlattenPages(pages: seq<Page>, want: set<nat>) returns (copy: seq<CopyPage>)
    ensures copy == Flattened(pages, want)
  {
    copy := [];
    for i := 0 to |pages|
      invariant |copy| == i
      invariant forall j :: 0 <= j < i ==> copy[j] == Flattened(pages, want)[j]
    {
      copy := copy + [if i in want then Raster(pages[i]) else Vector(pages[i])];
    }
  }

  /** The two UPDATE phases of the reorder remap, in the order the mapping is walked. */
  method RemapReordered(fields: seq<Field>, order: seq<int>) returns (r: seq<Field>)
    ensures r == FieldsAfterReorder(fields, order, Range(|order|))
  {
    r := fields;
    for k := 0 to |order|
      invariant r == Offset(fields, order, Range(k))
    {
      assert Range(k + 1)[..k] == Range(k);
      r := UpdatePage(r, order[k], k + OFFSET);
    }
    r := MapSeq(r, Land);
  }

  class DraftEditor {
    var locked: bool
    var pages: seq<Page>
    var fields: seq<Field>
    var edited: string

    constructor (pages: seq<Page>)
      ensures !locked && Doc() == Draft(pages, [], "")
    {
      this.locked, this.pages, this.fields, this.edited := false, pages, [], "";
    }

    function Doc(): Draft
      reads this
    {
      Draft(pages, fields, edited)
    }

    /** What every call of the editor does: the operation when the agreement is still a draft
        and the operation accepts its arguments, and otherwise nothing. */
    twostate predicate Ran(op: Op, ok: bool)
      reads this
    {
      && locked == old(locked)
      && ok == (!old(locked) && Apply(old(Doc()), op).Some?)
      && Doc() == if ok then Apply(old(Doc()), op).value else old(Doc())
    }

    method Delete(page: int) returns (ok: bool)
      modifies this
      ensures Ran(Op.DeletePage(page), ok)
    {
      var n := |pages|;
      ok := !locked && 0 <= page < n && n > 1;
      if ok {
        pages := CopyWithout(pages, page);
        fields := Filter(fields, (f: Field) => f.page != page);
        fields := MapSeq(fields, (f: Field) => ShiftUp(f, page));
        edited := RemapEdited(edited, (i: nat) => DeletedIndex(page, i));
      }
    }

    method Reorder(order: seq<int>) returns (ok: bool)
      modifies this
      ensures Ran(Op.ReorderPages(order), ok)
    {
      var n := |pages|;
      ok := !locked && IsPermutation(order, n);
      if ok {
        PermutationFacts(order, n);
        pages := CopyInOrder(pages, order);
        fields := RemapReordered(fields, order);
        edited := RemapEdited(edited, (i: nat) => ReorderedIndex(order, i));
      }
    }

    method Rotate(page: int, deg: int) returns (ok: bool)
      modifies this
      ensures Ran(Op.RotatePage(page, deg), ok)
    {
      var n, turn := |pages|, deg % 360;
      ok := !locked && 0 <= page < n && (turn == 90 || turn == 180 || turn == 270);
      if ok {
        pages := PagesRotated(pages, page, turn);
        var i := 0;
        while i < |fields|
          invariant 0 <= i <= |fields| == |old(fields)|
          invariant pages == PagesRotated(old(pages), page, turn) && edited == old(edited) && locked == old(locked)
          invariant forall j :: 0 <= j < i ==> fields[j] == FieldAfterRotate(old(fields)[j], page, turn)
          invariant forall j :: i <= j < |fields| ==> fields[j] == old(fields)[j]
        {
          var f := fields[i];
          if f.page == page {
            fields := fields[i := f.(rect := Rotation.Remap(f.rect, turn))];
          }
          i := i + 1;
        }
      }
    }

    method Append(extra: seq<Page>) returns (ok: bool)
      modifies this
      ensures Ran(Op.AddPages(extra), ok)
    {
      ok := !locked;
      if ok {
        pages := pages + extra;
      }
    }

    method Edit(targets: seq<int>) returns (ok: bool)
      modifies this
      ensures Ran(Op.EditTexts(targets), ok)
    {
      ok := !locked && AllPages(targets, |pages|);
      if ok {
        var now := set i | i in targets;
        pages := PagesEdited(pages, now);
        edited := AddEdited(edited, targets);
      }
    }

    /** The freeze at the head of `send`: nothing is written when it refuses. */
    method FreezeCopy() returns (copy: Option<seq<CopyPage>>)
      ensures copy == Freeze(Doc())
    {
      var tracked := Sorted(Csv.Decode(edited));
      if exists i :: i in tracked && !(0 <= i < |pages|) {
        copy := None;
      } else {
        var flat := FlattenPages(pages, set i | i in tracked);
        copy := Some(flat);
      }
    }
  }
}
