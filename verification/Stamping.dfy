/** What `stamp_fields` (sign/pdf_stamp.py) puts on the pages for the fields it is handed, and
    how an image is read from a text (`_png_from_data_url`). */
module Stamping {
  import opened Basics
  import opened Records
  import Csv
  import Rotation

  /** The mark in a stamped field's box: the image of a signature, a signature's text written
      out, a tick, a text, or none. A signature's caption is drawn with any of them. */
  datatype Mark = Picture | Script | Tick | Words | Nothing

  datatype Stamp = Stamp(field: Field, mark: Mark)

  predicate StartsWith(s: string, prefix: string) {
    |prefix| <= |s| && s[..|prefix|] == prefix
  }

  /** A field on no page of the document, or with an empty box, is passed over. */
  predicate Placeable(npages: nat, f: Field) {
    0 <= f.page < npages && f.rect.w > 0.0 && f.rect.h > 0.0
  }

  function MarkOf(f: Field): Mark {
    match f.kind
    case Checkbox => if f.value.checked then Tick else Nothing
    case Plain(_) => if f.value.blank then Nothing else Words
    case _ =>
      if f.value.drawable then Picture
      else if f.value.text != "" && !StartsWith(SkipSpaces(f.value.text), "data:") then Script
      else Nothing
  }

  function Stamps(npages: nat, fields: seq<Field>): seq<Stamp> {
    MapSeq(Filter(fields, (f: Field) => Placeable(npages, f)), (f: Field) => Stamp(f, MarkOf(f)))
  }

  method StampFields(npages: nat, fields: seq<Field>) returns (stamps: seq<Stamp>)
    ensures stamps == Stamps(npages, fields)
  {
    stamps := [];
    var keep := (f: Field) => Placeable(npages, f);
    var mark := (f: Field) => Stamp(f, MarkOf(f));
    assert fields[..0] == [];
    for k := 0 to |fields|
      invariant stamps == MapSeq(Filter(fields[..k], keep), mark)
    {
      var f := fields[k];
      FilterAppend(fields[..k], [f], keep);
      assert fields[..k + 1] == fields[..k] + [f];
      if f.page < 0 || f.page >= npages {
        continue;
      }
      if f.rect.w <= 0.0 || f.rect.h <= 0.0 {
        continue;
      }
      stamps := stamps + [Stamp(f, MarkOf(f))];
    }
    assert fields[..|fields|] == fields;
  }

  /** The box in points is empty exactly when the fractions are, on every page with a size. */
  lemma BoxIsEmptyIffFractionsAre(r: Rotation.Rect, rot: int, m: Rotation.Media)
    requires m.w0 > 0.0 && m.h0 > 0.0
    ensures var b := Rotation.RectPx(r, Rotation.VisualWidth(rot, m), Rotation.VisualHeight(rot, m));
            b.x1 - b.x0 <= 0.0 || b.y1 - b.y0 <= 0.0 <==> r.w <= 0.0 || r.h <= 0.0
  {
    var vw, vh := Rotation.VisualWidth(rot, m), Rotation.VisualHeight(rot, m);
    assert (r.x + r.w) * vw - r.x * vw == r.w * vw;
    assert (r.y + r.h) * vh - r.y * vh == r.h * vh;
  }

  lemma StampedIff(npages: nat, fields: seq<Field>, f: Field, mark: Mark)
    ensures Stamp(f, mark) in Stamps(npages, fields) <==> f in fields && Placeable(npages, f) && mark == MarkOf(f)
  {
    var kept := Filter(fields, (g: Field) => Placeable(npages, g));
    if f in kept {
      var i :| 0 <= i < |kept| && kept[i] == f;
      assert Stamps(npages, fields)[i] == Stamp(f, MarkOf(f));
    }
  }

  /** The box of a stamped field holds no mark exactly if the checkbox is not checked, the text is
      blank, or the signature can be drawn neither as an image nor, being empty or a data URL,
      as writing; otherwise its mark is of the field's kind. */
  lemma MarkFollowsValue(f: Field)
    ensures MarkOf(f) == Nothing <==>
              if f.kind == Checkbox then !f.value.checked
              else if f.kind.Plain? then f.value.blank
              else !f.value.drawable && (f.value.text == "" || StartsWith(SkipSpaces(f.value.text), "data:"))
    ensures MarkOf(f) == Tick ==> f.kind == Checkbox
    ensures MarkOf(f) == Words ==> f.kind.Plain?
    ensures MarkOf(f) == Picture || MarkOf(f) == Script ==> f.kind == Signature || f.kind == Initials
    ensures MarkOf(f) == Script ==> !f.value.drawable
  {
  }

  // How an image is read from a text

  function AfterComma(s: string): string {
    if s == [] then [] else if s[0] == ',' then s[1..] else AfterComma(s[1..])
  }

  /** What is decoded: a data URL from its first comma on, any other text as it is. */
  function Payload(s: string): string {
    if StartsWith(s, "data:") && ',' in s then AfterComma(s) else s
  }

  /** The value is read with `valid`, which says of a payload whether it decodes to an image. */
  ghost predicate ReadBy(v: Value, valid: string -> bool) {
    var trimmed := Csv.Strip(v.text);
    && v.blank == (trimmed == "")
    && v.image == (trimmed != "" && valid(Payload(trimmed)))
    && v.drawable == (v.text != "" && valid(Payload(v.text)))
  }

  /** A text that is its own trim is drawn as an image exactly when it was accepted as one. */
  lemma TrimmedIsDrawnAsTested(v: Value, valid: string -> bool)
    requires ReadBy(v, valid) && Csv.Strip(v.text) == v.text
    ensures v.drawable == v.image
  {
  }
}
