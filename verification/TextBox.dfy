/** Fitting a signer's text into its box (`_fit_text`, `_fit_textbox` in sign/pdf_stamp.py),
    for any way `width` of measuring a text at a size. Heights grow downwards. */
module TextBox {
  import opened Basics
  import Csv
  import TextLayout

  datatype Rect = Rect(x0: real, y0: real, x1: real, y1: real)
  datatype Drawn = Drawn(x: real, baseline: real, text: string, size: real)

  /** `size or default`: zero counts as not given. */
  function StartSize(size: Option<real>, byDefault: real): real {
    if size.None? || size.value == 0.0 then byDefault else size.value
  }

  function Unbroken(s: string): string {
    MapSeq(s, (c: char) => if c == '\n' then ' ' else c)
  }

  function OneLine(text: string): string {
    Csv.Strip(Unbroken(text))
  }

  // One line

  /** The first of `s`, `s - 0.5`, ... that is at most 6 or at which the text is narrow enough. */
  function NarrowSize(width: (string, real) -> real, text: string, room: real, s: real): (r: real)
    ensures r <= s && (r <= 6.0 || width(text, r) <= room)
    decreases (s * 2.0).Floor
  {
    if s > 6.0 && width(text, s) > room then NarrowSize(width, text, room, s - 0.5) else s
  }

  method Narrow(width: (string, real) -> real, text: string, room: real, first: real) returns (s: real)
    ensures s == NarrowSize(width, text, room, first)
  {
    s := first;
    while s > 6.0 && width(text, s) > room
      invariant NarrowSize(width, text, room, first) == NarrowSize(width, text, room, s)
      decreases (s * 2.0).Floor
    {
      s := s - 0.5;
    }
  }

  function Centred(r: Rect, line: string, s: real): Drawn {
    Drawn(r.x0 + 1.0, r.y0 + (r.y1 - r.y0 + s * 0.7) / 2.0, line, s)
  }

  function LineSize(r: Rect, size: Option<real>): real {
    StartSize(size, MaxReal(8.0, MinReal((r.y1 - r.y0) * 0.7, 22.0)))
  }

  function SingleLine(width: (string, real) -> real, r: Rect, line: string, size: Option<real>): seq<Drawn> {
    if line == [] then [] else [Centred(r, line, NarrowSize(width, line, r.x1 - r.x0 - 2.0, LineSize(r, size)))]
  }

  method FitText(width: (string, real) -> real, r: Rect, text: string, size: Option<real>) returns (drawn: seq<Drawn>)
    ensures drawn == SingleLine(width, r, OneLine(text), size)
  {
    var line := OneLine(text);
    drawn := DrawSingle(width, r, line, size);
  }

  method DrawSingle(width: (string, real) -> real, r: Rect, line: string, size: Option<real>) returns (drawn: seq<Drawn>)
    ensures drawn == SingleLine(width, r, line, size)
  {
    if line == [] {
      return [];
    }
    var s := Narrow(width, line, r.x1 - r.x0 - 2.0, LineSize(r, size));
    return [Centred(r, line, s)];
  }

  // Wrapped lines

  function At(width: (string, real) -> real, s: real): string -> real {
    (t: string) => width(t, s)
  }

  predicate FitsHeight(width: (string, real) -> real, r: Rect, text: string, s: real) {
    |Lines(width, r, text, s)| as real * (s * 1.2) <= r.y1 - r.y0 - 3.0
  }

  /** The first of `s`, `s - 0.5`, ... above 6 at which the wrapped lines fit the height. */
  function FittingSize(width: (string, real) -> real, r: Rect, text: string, s: real): (f: Option<real>)
    ensures f.Some? ==> 6.0 < f.value <= s
    decreases (s * 2.0).Floor
  {
    if s <= 6.0 then None
    else if FitsHeight(width, r, text, s) then Some(s)
    else FittingSize(width, r, text, s - 0.5)
  }

  function Baseline(r: Rect, s: real, k: nat): real {
    if k == 0 then r.y0 + 1.5 + s else Baseline(r, s, k - 1) + s * 1.2
  }

  function DrawnLines(r: Rect, lines: seq<string>, s: real): (d: seq<Drawn>)
    ensures |d| == |lines|
    ensures forall k :: 0 <= k < |d| ==> d[k] == Drawn(r.x0 + 1.5, Baseline(r, s, k), lines[k], s)
  {
    seq(|lines|, k requires 0 <= k < |lines| => Drawn(r.x0 + 1.5, Baseline(r, s, k), lines[k], s))
  }

  function FirstSize(r: Rect, size: Option<real>): real {
    StartSize(size, MaxReal(8.0, MinReal((r.y1 - r.y0) * 0.55, 13.0)))
  }

  function Lines(width: (string, real) -> real, r: Rect, text: string, s: real): seq<string> {
    TextLayout.Wrapped(At(width, s), r.x1 - r.x0 - 3.0, text)
  }

  /** What is drawn for a text that is not blank. */
  function Laid(width: (string, real) -> real, r: Rect, text: string, size: Option<real>): seq<Drawn> {
    match FittingSize(width, r, text, FirstSize(r, size))
    case Some(s) => DrawnLines(r, Lines(width, r, text, s), s)
    case None => SingleLine(width, r, OneLine(text), size)
  }

  function Boxed(width: (string, real) -> real, r: Rect, text: string, size: Option<real>): seq<Drawn> {
    if Csv.Strip(text) == [] then [] else Laid(width, r, Csv.Strip(text), size)
  }

  method DrawLines(r: Rect, lines: seq<string>, s: real) returns (drawn: seq<Drawn>)
    ensures drawn == DrawnLines(r, lines, s)
  {
    drawn := [];
    var baseline := r.y0 + 1.5 + s;
    for k := 0 to |lines|
      invariant baseline == Baseline(r, s, k)
      invariant drawn == DrawnLines(r, lines, s)[..k]
    {
      drawn := drawn + [Drawn(r.x0 + 1.5, baseline, lines[k], s)];
      baseline := baseline + s * 1.2;
    }
  }

  /** Ends for every starting size, whatever `width` says. */
  method ShrinkToFit(width: (string, real) -> real, r: Rect, text: string, first: real) returns (fit: Option<real>, lines: seq<string>)
    ensures fit == FittingSize(width, r, text, first)
    ensures fit.Some? ==> lines == Lines(width, r, text, fit.value)
  {
    var s := first;
    while s > 6.0
      invariant FittingSize(width, r, text, first) == FittingSize(width, r, text, s)
      decreases (s * 2.0).Floor
    {
      lines := TextLayout.Wrap(At(width, s), r.x1 - r.x0 - 3.0, text);
      if |lines| as real * (s * 1.2) <= r.y1 - r.y0 - 3.0 {
        return Some(s), lines;
      }
      s := s - 0.5;
    }
    return None, [];
  }

  method FitTextBox(width: (string, real) -> real, r: Rect, text: string, size: Option<real>) returns (drawn: seq<Drawn>)
    ensures drawn == Boxed(width, r, text, size)
  {
    var t := Csv.Strip(text);
    if t == [] {
      return [];
    }
    var fit, lines := ShrinkToFit(width, r, t, FirstSize(r, size));
    if fit.Some? {
      drawn := DrawLines(r, lines, fit.value);
    } else {
      drawn := FitText(width, r, t, size);
    }
  }

  /** The size chosen is the largest that fits among those tried, and none is chosen only when
      none above 6 fits. */
  lemma {:induction false} LargestTriedSize(width: (string, real) -> real, r: Rect, text: string, s: real, k: nat)
    requires s - k as real * 0.5 > 6.0 && FitsHeight(width, r, text, s - k as real * 0.5)
    ensures var f := FittingSize(width, r, text, s); f.Some? && f.value >= s - k as real * 0.5
    decreases k
  {
    if k > 0 && !FitsHeight(width, r, text, s) {
      assert s - k as real * 0.5 == s - 0.5 - (k - 1) as real * 0.5;
      LargestTriedSize(width, r, text, s - 0.5, k - 1);
    }
  }

  lemma Product(a: real, d: real)
    requires a >= 0.0 && d >= 0.0
    ensures a * d >= 0.0
  {
  }

  lemma {:induction false} BaselineAt(r: Rect, s: real, k: nat)
    ensures Baseline(r, s, k) == r.y0 + 1.5 + s + k as real * (s * 1.2)
  {
    if k > 0 {
      BaselineAt(r, s, k - 1);
      var d := s * 1.2;
      assert k as real * d == (k - 1) as real * d + d;
    }
  }

  lemma BaselinesInside(r: Rect, n: nat, s: real, k: nat)
    requires s > 6.0 && k < n && n as real * (s * 1.2) <= r.y1 - r.y0 - 3.0
    ensures r.y0 < Baseline(r, s, k) < r.y1
  {
    BaselineAt(r, s, k);
    var d := s * 1.2;
    Product(k as real, d);
    Product((n - k - 1) as real, d);
    assert (n - k - 1) as real * d == n as real * d - k as real * d - d;
  }

  lemma {:induction false} FittingSizeFits(width: (string, real) -> real, r: Rect, text: string, s: real)
    requires FittingSize(width, r, text, s).Some?
    ensures FitsHeight(width, r, text, FittingSize(width, r, text, s).value)
    decreases (s * 2.0).Floor
  {
    if !FitsHeight(width, r, text, s) {
      FittingSizeFits(width, r, text, s - 0.5);
    }
  }

  lemma FittingLinesInside(width: (string, real) -> real, r: Rect, text: string, s: real, k: nat)
    requires FittingSize(width, r, text, s).Some?
    requires k < |Lines(width, r, text, FittingSize(width, r, text, s).value)|
    ensures r.y0 < Baseline(r, FittingSize(width, r, text, s).value, k) < r.y1
  {
    var f := FittingSize(width, r, text, s).value;
    FittingSizeFits(width, r, text, s);
    BaselinesInside(r, |Lines(width, r, text, f)|, f, k);
  }

  /** The text is wrapped: some size above 6 makes it fit the height. */
  predicate IsWrapped(width: (string, real) -> real, r: Rect, text: string, size: Option<real>) {
    Csv.Strip(text) != [] && FittingSize(width, r, Csv.Strip(text), FirstSize(r, size)).Some?
  }

  /** Wrapped lines are drawn inside the box, one leading apart and with one margin to the left,
      and to the right wherever the line fits the width. */
  lemma WrappedLinesLieInTheBox(width: (string, real) -> real, r: Rect, text: string, size: Option<real>, k: nat)
    requires IsWrapped(width, r, text, size) && k < |Boxed(width, r, text, size)|
    ensures var d := Boxed(width, r, text, size);
            && r.y0 < d[k].baseline < r.y1 && 6.0 < d[k].size <= FirstSize(r, size)
            && (k > 0 ==> d[k].baseline - d[k - 1].baseline == d[k].size * 1.2)
            && d[k].x - r.x0 == 1.5
            && (width(d[k].text, d[k].size) <= r.x1 - r.x0 - 3.0 ==> r.x1 - (d[k].x + width(d[k].text, d[k].size)) >= 1.5)
  {
    FittingLinesInside(width, r, Csv.Strip(text), FirstSize(r, size), k);
  }

  lemma DrawnLinesHoldTheText(width: (string, real) -> real, r: Rect, t: string, s: real)
    ensures var d := DrawnLines(r, Lines(width, r, t, s), s);
            && TextLayout.Ink(FlatMap(d, TextOf)) == TextLayout.Ink(t)
            && forall k :: 0 <= k < |d| && ' ' in d[k].text ==> width(d[k].text, s) <= r.x1 - r.x0 - 3.0
  {
    var lines, max := Lines(width, r, t, s), r.x1 - r.x0 - 3.0;
    SameTexts(DrawnLines(r, lines, s), lines);
    TextLayout.WrapKeepsEveryCharacter(At(width, s), max, t);
    TextLayout.LinesWithASpaceFit(At(width, s), max, t);
    assert forall k :: 0 <= k < |lines| ==> TextLayout.FitsIfBroken(At(width, s), max, lines[k]);
  }

  /** Together they hold the text's characters in order, and those with a space in them are no
      wider than the box. */
  lemma WrappedLinesHoldTheText(width: (string, real) -> real, r: Rect, text: string, size: Option<real>)
    requires IsWrapped(width, r, text, size)
    ensures var d := Boxed(width, r, text, size);
            && TextLayout.Ink(FlatMap(d, TextOf)) == TextLayout.Ink(Csv.Strip(text))
            && forall k :: 0 <= k < |d| && ' ' in d[k].text ==> width(d[k].text, d[k].size) <= r.x1 - r.x0 - 3.0
  {
    DrawnLinesHoldTheText(width, r, Csv.Strip(text), FittingSize(width, r, Csv.Strip(text), FirstSize(r, size)).value);
  }

  function TextOf(d: Drawn): string {
    d.text
  }

  lemma {:induction false} SameTexts(d: seq<Drawn>, lines: seq<string>)
    requires |d| == |lines| && forall k :: 0 <= k < |d| ==> d[k].text == lines[k]
    ensures FlatMap(d, TextOf) == TextLayout.Flat(lines)
  {
    if d != [] {
      SameTexts(d[1..], lines[1..]);
    }
  }

  // The single line

  /** The characters that are not white space. */
  function Solid(s: string): string {
    Filter(s, (c: char) => !IsSpace(c))
  }

  lemma SolidAppend(a: string, b: string)
    ensures Solid(a + b) == Solid(a) + Solid(b)
  {
    FilterAppend(a, b, (c: char) => !IsSpace(c));
  }

  lemma SpaceIsNotSolid(c: char)
    requires IsSpace(c)
    ensures Solid([c]) == []
  {
    assert [c][1..] == [] && [c][0] == c;
    assert Solid([]) == [] && Solid([c]) == [] + Solid([]);
  }

  lemma FirstSpaceIsNotSolid(s: string)
    requires s != [] && IsSpace(s[0])
    ensures Solid(s) == Solid(s[1..])
  {
  }

  lemma LastSpaceIsNotSolid(s: string)
    requires s != [] && IsSpace(s[|s| - 1])
    ensures Solid(s) == Solid(s[..|s| - 1])
  {
    var init, last := s[..|s| - 1], [s[|s| - 1]];
    SolidAppend(init, last);
    SpaceIsNotSolid(s[|s| - 1]);
    assert s == init + last && Solid(init) + [] == Solid(init);
  }

  lemma {:induction false} StripKeepsSolid(s: string)
    ensures Solid(Csv.Strip(s)) == Solid(s)
  {
    if s != [] && IsSpace(s[0]) {
      FirstSpaceIsNotSolid(s);
      StripKeepsSolid(s[1..]);
    } else if s != [] && IsSpace(s[|s| - 1]) {
      LastSpaceIsNotSolid(s);
      StripKeepsSolid(s[..|s| - 1]);
    }
  }

  lemma {:induction false} UnbrokenKeepsSolid(s: string)
    ensures Solid(Unbroken(s)) == Solid(s) && '\n' !in Unbroken(s)
  {
    if s != [] {
      UnbrokenKeepsSolid(s[1..]);
      assert Unbroken(s)[1..] == Unbroken(s[1..]);
    }
  }

  lemma {:induction false} StripHasNoMore(s: string, c: char)
    requires c !in s
    ensures c !in Csv.Strip(s)
  {
    if s != [] && IsSpace(s[0]) {
      StripHasNoMore(s[1..], c);
    } else if s != [] && IsSpace(s[|s| - 1]) {
      StripHasNoMore(s[..|s| - 1], c);
    }
  }

  /** The line holds the text's characters other than white space, in order, and no line end. */
  lemma OneLineHoldsTheText(text: string)
    ensures Solid(OneLine(text)) == Solid(text) && '\n' !in OneLine(text)
  {
    UnbrokenKeepsSolid(text);
    StripKeepsSolid(Unbroken(text));
    StripHasNoMore(Unbroken(text), '\n');
  }

  /** Every size tried before the one chosen is above 6 and too wide. */
  lemma {:induction false} LargerSizesAreTooWide(width: (string, real) -> real, text: string, room: real, s: real, k: nat)
    requires s - k as real * 0.5 > NarrowSize(width, text, room, s)
    ensures s - k as real * 0.5 > 6.0 && width(text, s - k as real * 0.5) > room
    decreases k
  {
    if k > 0 {
      assert s - k as real * 0.5 == s - 0.5 - (k - 1) as real * 0.5;
      LargerSizesAreTooWide(width, text, room, s - 0.5, k - 1);
    }
  }

  /** A text drawn as one line stands in the middle of the box, with a margin of one point to the
      left, and to the right unless even size 6 is too wide; seven tenths of the size are taken
      for its height. */
  lemma SingleLineIsCentred(width: (string, real) -> real, r: Rect, text: string, size: Option<real>)
    requires OneLine(text) != []
    ensures var d := SingleLine(width, r, OneLine(text), size);
            && |d| == 1 && d[0].text == OneLine(text) && d[0].size <= LineSize(r, size)
            && (d[0].baseline - d[0].size * 0.7) - r.y0 == r.y1 - d[0].baseline
            && d[0].x - r.x0 == 1.0
            && (d[0].size <= 6.0 || r.x1 - (d[0].x + width(d[0].text, d[0].size)) >= 1.0)
  {
  }

  /** The size that is tried first: the one given, or else seven tenths of the box's height for one
      line, between 8 and 22, and 0.55 of it for wrapped lines, between 8 and 13. */
  lemma FirstTried(r: Rect, size: Option<real>)
    ensures size.Some? && size.value != 0.0 ==> LineSize(r, size) == FirstSize(r, size) == size.value
    ensures !(size.Some? && size.value != 0.0) ==>
              var h := r.y1 - r.y0;
              && 8.0 <= LineSize(r, size) <= 22.0 && (8.0 <= h * 0.7 <= 22.0 ==> LineSize(r, size) == h * 0.7)
              && 8.0 <= FirstSize(r, size) <= 13.0 && (8.0 <= h * 0.55 <= 13.0 ==> FirstSize(r, size) == h * 0.55)
  {
  }

  /** What is not wrapped, and not blank, is drawn as that line. */
  lemma UnwrappedIsOneLine(width: (string, real) -> real, r: Rect, text: string, size: Option<real>)
    requires !IsWrapped(width, r, text, size)
    ensures Boxed(width, r, text, size)
         == if Csv.Strip(text) == [] then [] else SingleLine(width, r, OneLine(Csv.Strip(text)), size)
  {
  }
}
