/** The prefill detector (`detect_prefill_fields` in sign/esign.py). The matches of the merge
    token pattern on each line are given; everything done with them is here. */
module Prefill {
  import opened Basics
  import opened Anchors

  datatype TokenMatch = TokenMatch(start: nat, end: nat, key: string)
  datatype Label = Label(text: string, key: string)

  /** What the detector reads: the lines, the pattern's matches on each, the labels longest
      first, the limit, the character class, the default width of a key's box in points, and
      rounding to five decimals. */
  datatype Setting = Setting(
    lines: seq<Line>,
    tokens: seq<seq<TokenMatch>>,
    labels: seq<Label>,
    limit: int,
    alnum: char -> bool,
    width: string -> real,
    round5: real -> real)

  datatype Claim = Claim(line: nat, start: nat, end: nat, key: string, over: bool)
  datatype Field = Field(page: nat, key: string, x: real, y: real, w: real, h: real)

  ghost predicate Rounds(round5: real -> real) {
    && (forall a, b :: a <= b ==> round5(a) <= round5(b))
    && (forall a :: a - 0.000005 <= round5(a) <= a + 0.000005)
    && round5(0.0) == 0.0
  }

  predicate Valid(c: Setting) {
    |c.tokens| == |c.lines| && forall l :: 0 <= l < |c.lines| ==> Sized(c.lines[l])
  }

  // What a claimed span yields

  function SpanBox(ln: Line, start: nat, end: nat): Option<Box> {
    Hull(ln.words, Touched(ln, start, end), |ln.words|)
  }

  /** The box before rounding, in fractions of the page. */
  function Place(W: real, H: real, b: Box, over: bool, minW: real): (r: (real, real, real, real))
    requires W > 0.0 && H > 0.0
  {
    var nx := if over then b.x0 / W else (b.x1 + 6.0) / W;
    var w := if over then MaxReal((b.x1 - b.x0) / W, minW / W) else minW / W;
    var nw := MinReal(w, 1.0);
    var nh := MinReal(MaxReal((b.bottom - b.top) / H, 22.0 / H), 1.0);
    (MaxReal(0.0, MinReal(nx, 1.0 - nw)), MaxReal(0.0, MinReal(b.top / H, 1.0 - nh)), nw, nh)
  }

  function FieldOf(c: Setting, h: Claim): Option<Field>
    requires h.line < |c.lines| && Sized(c.lines[h.line])
  {
    var ln := c.lines[h.line];
    var b := SpanBox(ln, h.start, h.end);
    if b.None? then None
    else
      var (x, y, w, hh) := Place(ln.W, ln.H, b.value, h.over, c.width(h.key));
      Some(Field(ln.page, h.key, c.round5(x), c.round5(y), c.round5(w), c.round5(hh)))
  }

  // The greedy choice

  predicate Overlap(h: Claim, l: nat, start: nat, end: nat) {
    h.line == l && !(end <= h.start || h.end <= start)
  }

  predicate Taken(hits: seq<Claim>, l: nat, start: nat, end: nat) {
    exists i :: 0 <= i < |hits| && Overlap(hits[i], l, start, end)
  }

  predicate KeySeen(hits: seq<Claim>, key: string) {
    exists i :: 0 <= i < |hits| && hits[i].key == key
  }

  /** The detector returns as soon as an emitted field reaches the limit. */
  predicate Full(c: Setting, hits: seq<Claim>) {
    hits != [] && |hits| >= c.limit
  }

  function TokenStep(c: Setting, l: nat, j: nat, hits: seq<Claim>): seq<Claim>
    requires l < |c.lines| && l < |c.tokens| && j < |c.tokens[l]|
  {
    var m := c.tokens[l][j];
    if m.key == "" || KeySeen(hits, m.key) || Taken(hits, l, m.start, m.end)
       || SpanBox(c.lines[l], m.start, m.end).None? then hits
    else hits + [Claim(l, m.start, m.end, m.key, true)]
  }

  function TokensFrom(c: Setting, l: nat, j: nat, hits: seq<Claim>): seq<Claim>
    requires l < |c.lines| && l < |c.tokens| && j <= |c.tokens[l]|
    decreases |c.tokens[l]| - j
  {
    if j == |c.tokens[l]| || Full(c, hits) then hits
    else TokensFrom(c, l, j + 1, TokenStep(c, l, j, hits))
  }

  predicate MidWord(c: Setting, text: string, p: nat) {
    0 < p <= |text| && (c.alnum(text[p - 1]) || text[p - 1] == '_')
  }

  /** An occurrence of "label:" at a word boundary, on unclaimed text with words under it. */
  predicate Fits(c: Setting, l: nat, caption: string, hits: seq<Claim>, p: nat)
    requires l < |c.lines|
  {
    && At(c.lines[l].text, caption + ":", p)
    && !MidWord(c, c.lines[l].text, p)
    && !Taken(hits, l, p, p + |caption| + 1)
    && SpanBox(c.lines[l], p, p + |caption| + 1).Some?
  }

  /** The first place from `start` on where the label fits, or -1. */
  function FirstFit(c: Setting, l: nat, caption: string, hits: seq<Claim>, start: nat): (p: int)
    requires l < |c.lines|
    ensures p >= -1
    decreases |c.lines[l].text| + 1 - start
  {
    if start > |c.lines[l].text| then -1
    else if Fits(c, l, caption, hits, start) then start
    else FirstFit(c, l, caption, hits, start + 1)
  }

  lemma {:induction false} FirstFitIsFirst(c: Setting, l: nat, caption: string, hits: seq<Claim>, start: nat, q: nat)
    requires l < |c.lines| && start <= q && Fits(c, l, caption, hits, q)
    ensures var p := FirstFit(c, l, caption, hits, start); start <= p <= q && Fits(c, l, caption, hits, p)
    decreases |c.lines[l].text| + 1 - start
  {
    if !Fits(c, l, caption, hits, start) {
      FirstFitIsFirst(c, l, caption, hits, start + 1, q);
    }
  }

  lemma {:induction false} FirstFitFits(c: Setting, l: nat, caption: string, hits: seq<Claim>, start: nat)
    requires l < |c.lines| && FirstFit(c, l, caption, hits, start) >= 0
    ensures Fits(c, l, caption, hits, FirstFit(c, l, caption, hits, start))
    decreases |c.lines[l].text| + 1 - start
  {
    if !Fits(c, l, caption, hits, start) {
      FirstFitFits(c, l, caption, hits, start + 1);
    }
  }

  function LabelStep(c: Setting, l: nat, j: nat, hits: seq<Claim>): seq<Claim>
    requires l < |c.lines| && j < |c.labels|
  {
    var caption := c.labels[j];
    if KeySeen(hits, caption.key) then hits
    else
      var p := FirstFit(c, l, caption.text, hits, 0);
      if p < 0 then hits else hits + [Claim(l, p, p + |caption.text| + 1, caption.key, false)]
  }

  function LabelsFrom(c: Setting, l: nat, j: nat, hits: seq<Claim>): seq<Claim>
    requires l < |c.lines| && j <= |c.labels|
    decreases |c.labels| - j
  {
    if j == |c.labels| || Full(c, hits) then hits
    else LabelsFrom(c, l, j + 1, LabelStep(c, l, j, hits))
  }

  function LineHits(c: Setting, l: nat, hits: seq<Claim>): seq<Claim>
    requires l < |c.lines| && l < |c.tokens|
  {
    LabelsFrom(c, l, 0, TokensFrom(c, l, 0, hits))
  }

  function LinesFrom(c: Setting, l: nat, hits: seq<Claim>): seq<Claim>
    requires l <= |c.lines| && |c.tokens| == |c.lines|
    decreases |c.lines| - l
  {
    if l == |c.lines| || Full(c, hits) then hits
    else LinesFrom(c, l + 1, LineHits(c, l, hits))
  }

  // The loops

  /** The fields are exactly those of the claims. */
  predicate Emitted(c: Setting, hits: seq<Claim>, out: seq<Field>) {
    && |out| == |hits|
    && (hits != [] ==>
          var n := |hits| - 1;
          && Emitted(c, hits[..n], out[..n])
          && hits[n].line < |c.lines| && Sized(c.lines[hits[n].line])
          && FieldOf(c, hits[n]) == Some(out[n]))
  }

  lemma {:induction false} EmittedAt(c: Setting, hits: seq<Claim>, out: seq<Field>, i: nat)
    requires Emitted(c, hits, out) && i < |hits|
    ensures hits[i].line < |c.lines| && Sized(c.lines[hits[i].line]) && FieldOf(c, hits[i]) == Some(out[i])
  {
    if i < |hits| - 1 {
      EmittedAt(c, hits[..|hits| - 1], out[..|hits| - 1], i);
    }
  }

  lemma EmitOne(c: Setting, hits: seq<Claim>, out: seq<Field>, h: Claim, f: Field)
    requires Emitted(c, hits, out) && h.line < |c.lines| && Sized(c.lines[h.line]) && FieldOf(c, h) == Some(f)
    ensures Emitted(c, hits + [h], out + [f])
  {
    assert (hits + [h])[..|hits|] == hits && (out + [f])[..|hits|] == out;
  }

  method Emit(c: Setting, h: Claim, b: Box) returns (f: Field)
    requires h.line < |c.lines| && Sized(c.lines[h.line]) && SpanBox(c.lines[h.line], h.start, h.end) == Some(b)
    ensures FieldOf(c, h) == Some(f)
  {
    var ln := c.lines[h.line];
    var (x, y, w, hh) := Place(ln.W, ln.H, b, h.over, c.width(h.key));
    return Field(ln.page, h.key, c.round5(x), c.round5(y), c.round5(w), c.round5(hh));
  }

  /** Tokens of one line: `occupied` and `seen_keys` are those of the hits so far. */
  method DetectTokens(c: Setting, l: nat, before: seq<Claim>, sofar: seq<Field>) returns (hits: seq<Claim>, out: seq<Field>)
    requires Valid(c) && l < |c.lines| && Emitted(c, before, sofar) && !Full(c, before)
    ensures hits == TokensFrom(c, l, 0, before) && Emitted(c, hits, out)
  {
    hits, out := before, sofar;
    for j := 0 to |c.tokens[l]|
      invariant TokensFrom(c, l, 0, before) == TokensFrom(c, l, j, hits)
      invariant Emitted(c, hits, out) && !Full(c, hits)
    {
      var m := c.tokens[l][j];
      if m.key == "" || KeySeen(hits, m.key) || Taken(hits, l, m.start, m.end) {
        continue;
      }
      var bb := BoxOfSpan(c.lines[l], m.start, m.end);
      if bb.None? {
        continue;
      }
      var h := Claim(l, m.start, m.end, m.key, true);
      var f := Emit(c, h, bb.value);
      EmitOne(c, hits, out, h, f);
      hits, out := hits + [h], out + [f];
      if |out| >= c.limit {
        return;
      }
    }
  }

  /** The search for one label on one line. */
  method FindFit(c: Setting, l: nat, caption: string, hits: seq<Claim>) returns (pos: int, bb: Option<Box>)
    requires l < |c.lines| && Sized(c.lines[l])
    ensures pos == FirstFit(c, l, caption, hits, 0)
    ensures pos >= 0 ==> bb.Some? && bb == SpanBox(c.lines[l], pos, pos + |caption| + 1)
  {
    var text := c.lines[l].text;
    var start: nat := 0;
    while true
      invariant start <= |text| + 1
      invariant FirstFit(c, l, caption, hits, 0) == FirstFit(c, l, caption, hits, start)
      decreases |text| + 1 - start
    {
      pos := Find(text, caption + ":", start);
      SkipTo(c, l, caption, hits, start, pos);
      if pos < 0 {
        bb := None;
        return;
      }
      start := pos + 1;
      bb := BoxIfFits(c, l, caption, hits, pos);
      if bb.Some? {
        return;
      }
    }
  }

  method BoxIfFits(c: Setting, l: nat, caption: string, hits: seq<Claim>, pos: nat) returns (bb: Option<Box>)
    requires l < |c.lines| && Sized(c.lines[l]) && At(c.lines[l].text, caption + ":", pos)
    ensures bb.Some? == Fits(c, l, caption, hits, pos)
    ensures bb.Some? ==> bb == SpanBox(c.lines[l], pos, pos + |caption| + 1)
  {
    var text, n := c.lines[l].text, |caption| + 1;
    if pos > 0 && (c.alnum(text[pos - 1]) || text[pos - 1] == '_') {
      return None;
    }
    if Taken(hits, l, pos, pos + n) {
      return None;
    }
    bb := BoxOfSpan(c.lines[l], pos, pos + n);
  }

  method DetectLabel(c: Setting, l: nat, j: nat, before: seq<Claim>, sofar: seq<Field>) returns (hits: seq<Claim>, out: seq<Field>)
    requires l < |c.lines| && Sized(c.lines[l]) && j < |c.labels| && Emitted(c, before, sofar)
    ensures hits == LabelStep(c, l, j, before) && Emitted(c, hits, out)
  {
    hits, out := before, sofar;
    var caption := c.labels[j];
    if KeySeen(hits, caption.key) {
      return;
    }
    var pos, bb := FindFit(c, l, caption.text, hits);
    if pos < 0 {
      return;
    }
    var h := Claim(l, pos, pos + |caption.text| + 1, caption.key, false);
    var f := Emit(c, h, bb.value);
    EmitOne(c, hits, out, h, f);
    hits, out := hits + [h], out + [f];
  }

  /** All labels on one line. */
  method DetectLabels(c: Setting, l: nat, before: seq<Claim>, sofar: seq<Field>) returns (hits: seq<Claim>, out: seq<Field>)
    requires Valid(c) && l < |c.lines| && Emitted(c, before, sofar) && !Full(c, before)
    ensures hits == LabelsFrom(c, l, 0, before) && Emitted(c, hits, out)
  {
    hits, out := before, sofar;
    for j := 0 to |c.labels|
      invariant LabelsFrom(c, l, 0, before) == LabelsFrom(c, l, j, hits)
      invariant Emitted(c, hits, out) && !Full(c, hits)
    {
      hits, out := DetectLabel(c, l, j, hits, out);
      if out != [] && |out| >= c.limit {
        return;
      }
    }
  }

  /** Nothing fits before the next occurrence. */
  lemma {:induction false} SkipTo(c: Setting, l: nat, caption: string, hits: seq<Claim>, start: nat, pos: int)
    requires l < |c.lines| && start <= |c.lines[l].text| + 1 && pos == Find(c.lines[l].text, caption + ":", start)
    ensures FirstFit(c, l, caption, hits, start)
         == if pos < 0 then -1 else if Fits(c, l, caption, hits, pos) then pos else FirstFit(c, l, caption, hits, pos + 1)
    decreases |c.lines[l].text| + 1 - start
  {
    if start <= |c.lines[l].text| && pos != start {
      SkipTo(c, l, caption, hits, start + 1, pos);
    }
  }

  method Detect(c: Setting) returns (hits: seq<Claim>, out: seq<Field>)
    requires Valid(c)
    ensures hits == LinesFrom(c, 0, []) && Emitted(c, hits, out)
  {
    hits, out := [], [];
    for l := 0 to |c.lines|
      invariant LinesFrom(c, 0, []) == LinesFrom(c, l, hits)
      invariant Emitted(c, hits, out) && !Full(c, hits)
    {
      hits, out := DetectTokens(c, l, hits, out);
      if out != [] && |out| >= c.limit {
        return;
      }
      hits, out := DetectLabels(c, l, hits, out);
      if out != [] && |out| >= c.limit {
        return;
      }
    }
  }
}
