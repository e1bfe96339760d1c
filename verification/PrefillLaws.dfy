/** What the prefill detector promises, for every document and every limit. */
module PrefillLaws {
  import opened Basics
  import opened Anchors
  import opened Prefill

  /** The pattern never matches the empty text. */
  predicate TokensInRange(c: Setting) {
    && |c.tokens| == |c.lines|
    && forall l, j :: 0 <= l < |c.lines| && 0 <= j < |c.tokens[l]| ==>
         c.tokens[l][j].start < c.tokens[l][j].end <= |c.lines[l].text|
  }

  predicate IsToken(c: Setting, h: Claim, j: nat)
    requires h.line < |c.tokens|
  {
    j < |c.tokens[h.line]| && h.key != "" && c.tokens[h.line][j] == TokenMatch(h.start, h.end, h.key)
  }

  /** Neither a letter or digit nor an underscore stands right before the place. */
  predicate AtBoundary(c: Setting, text: string, p: nat) {
    0 < p <= |text| ==> !c.alnum(text[p - 1]) && text[p - 1] != '_'
  }

  predicate IsLabel(c: Setting, h: Claim, j: nat)
    requires h.line < |c.lines|
  {
    && j < |c.labels| && h.key == c.labels[j].key && h.end == h.start + |c.labels[j].text| + 1
    && At(c.lines[h.line].text, c.labels[j].text + ":", h.start)
    && AtBoundary(c, c.lines[h.line].text, h.start)
  }

  /** A claim is a token of the line, or a label of the line at a word boundary, with words
      under it. */
  ghost predicate Sound(c: Setting, h: Claim) {
    && h.line < |c.lines| && h.line < |c.tokens|
    && h.start < h.end <= |c.lines[h.line].text|
    && SpanBox(c.lines[h.line], h.start, h.end).Some?
    && if h.over then exists j: nat :: IsToken(c, h, j) else exists j: nat :: IsLabel(c, h, j)
  }

  predicate Apart(a: Claim, b: Claim) {
    a.key != b.key && (a.line == b.line ==> a.end <= b.start || b.end <= a.start)
  }

  ghost predicate Good(c: Setting, hits: seq<Claim>) {
    && |hits| <= AtLeastOne(c.limit)
    && (forall i :: 0 <= i < |hits| ==> Sound(c, hits[i]))
    && (forall i, j :: 0 <= i < j < |hits| ==> Apart(hits[i], hits[j]))
  }

  lemma TokenStepGood(c: Setting, l: nat, j: nat, hits: seq<Claim>)
    requires TokensInRange(c) && l < |c.lines| && j < |c.tokens[l]| && Good(c, hits) && !Full(c, hits)
    ensures Good(c, TokenStep(c, l, j, hits))
  {
    var m := c.tokens[l][j];
    var h := Claim(l, m.start, m.end, m.key, true);
    if TokenStep(c, l, j, hits) != hits {
      assert IsToken(c, h, j);
      assert Sound(c, h);
    }
  }

  lemma LabelStepGood(c: Setting, l: nat, j: nat, hits: seq<Claim>)
    requires l < |c.lines| && l < |c.tokens| && j < |c.labels| && Good(c, hits) && !Full(c, hits)
    ensures Good(c, LabelStep(c, l, j, hits))
  {
    var p := FirstFit(c, l, c.labels[j].text, hits, 0);
    if !KeySeen(hits, c.labels[j].key) && p >= 0 {
      FirstFitFits(c, l, c.labels[j].text, hits, 0);
      var h := Claim(l, p, p + |c.labels[j].text| + 1, c.labels[j].key, false);
      assert IsLabel(c, h, j);
      assert Sound(c, h);
    }
  }

  lemma {:induction false} TokensGood(c: Setting, l: nat, j: nat, hits: seq<Claim>)
    requires TokensInRange(c) && l < |c.lines| && j <= |c.tokens[l]| && Good(c, hits)
    ensures Good(c, TokensFrom(c, l, j, hits))
    decreases |c.tokens[l]| - j
  {
    if j < |c.tokens[l]| && !Full(c, hits) {
      TokenStepGood(c, l, j, hits);
      TokensGood(c, l, j + 1, TokenStep(c, l, j, hits));
    }
  }

  lemma {:induction false} LabelsGood(c: Setting, l: nat, j: nat, hits: seq<Claim>)
    requires l < |c.lines| && l < |c.tokens| && j <= |c.labels| && Good(c, hits)
    ensures Good(c, LabelsFrom(c, l, j, hits))
    decreases |c.labels| - j
  {
    if j < |c.labels| && !Full(c, hits) {
      var next := LabelStep(c, l, j, hits);
      LabelStepGood(c, l, j, hits);
      LabelsGood(c, l, j + 1, next);
    }
  }

  lemma LineGood(c: Setting, l: nat, hits: seq<Claim>)
    requires TokensInRange(c) && l < |c.lines| && Good(c, hits)
    ensures Good(c, LineHits(c, l, hits))
  {
    TokensGood(c, l, 0, hits);
    LabelsGood(c, l, 0, TokensFrom(c, l, 0, hits));
  }

  lemma {:induction false} LinesGood(c: Setting, l: nat, hits: seq<Claim>)
    requires TokensInRange(c) && l <= |c.lines| && Good(c, hits)
    ensures Good(c, LinesFrom(c, l, hits))
    decreases |c.lines| - l
  {
    if l < |c.lines| && !Full(c, hits) {
      LineGood(c, l, hits);
      LinesGood(c, l + 1, LineHits(c, l, hits));
    }
  }

  /** The claims are sound, with distinct keys and disjoint spans on each line, and no more
      than the limit (one, when the limit is below one). */
  lemma DetectedClaimsAreGood(c: Setting)
    requires TokensInRange(c)
    ensures Good(c, LinesFrom(c, 0, []))
  {
    LinesGood(c, 0, []);
  }

  // Nothing is missed

  predicate Grown(a: seq<Claim>, b: seq<Claim>) {
    |a| <= |b| && a == b[..|a|]
  }

  lemma {:induction false} TokensGrow(c: Setting, l: nat, j: nat, hits: seq<Claim>)
    requires l < |c.lines| && l < |c.tokens| && j <= |c.tokens[l]|
    ensures Grown(hits, TokensFrom(c, l, j, hits))
    decreases |c.tokens[l]| - j
  {
    if j < |c.tokens[l]| && !Full(c, hits) {
      var next := TokenStep(c, l, j, hits);
      TokensGrow(c, l, j + 1, next);
    }
  }

  lemma {:induction false} LabelsGrow(c: Setting, l: nat, j: nat, hits: seq<Claim>)
    requires l < |c.lines| && j <= |c.labels|
    ensures Grown(hits, LabelsFrom(c, l, j, hits))
    decreases |c.labels| - j
  {
    if j < |c.labels| && !Full(c, hits) {
      var next := LabelStep(c, l, j, hits);
      LabelsGrow(c, l, j + 1, next);
    }
  }

  lemma {:induction false} LinesGrow(c: Setting, l: nat, hits: seq<Claim>)
    requires l <= |c.lines| && |c.tokens| == |c.lines|
    ensures Grown(hits, LinesFrom(c, l, hits))
    decreases |c.lines| - l
  {
    if l < |c.lines| && !Full(c, hits) {
      var mid, next := TokensFrom(c, l, 0, hits), LineHits(c, l, hits);
      TokensGrow(c, l, 0, hits);
      LabelsGrow(c, l, 0, mid);
      LinesGrow(c, l + 1, next);
    }
  }

  /** The claim covers some of the text between the two places. */
  predicate Covers(h: Claim, l: nat, start: nat, end: nat) {
    h.line == l && h.start < end && start < h.end
  }

  /** No word has a character between the two places. */
  predicate NoWords(ln: Line, start: nat, end: nat) {
    forall i :: 0 <= i < |ln.words| ==> !Within(ln, i, start, end)
  }

  lemma NoWordsNoBox(ln: Line, start: nat, end: nat)
    requires WellMade(ln)
    ensures SpanBox(ln, start, end).None? <==> NoWords(ln, start, end)
  {
    forall i: nat | i < |ln.words|
      ensures Within(ln, i, start, end) <==> i in Touched(ln, start, end)
    {
      WithinIsTouched(ln, i, start, end);
    }
  }

  /** A token is accounted for: it has no key or stands over no word, a claim of an earlier line or
      another token has its key, or another token of the line covers some of it. */
  predicate TokenAccounted(c: Setting, l: nat, q: nat, hits: seq<Claim>)
    requires l < |c.lines| && l < |c.tokens| && q < |c.tokens[l]|
  {
    var m := c.tokens[l][q];
    || m.key == "" || NoWords(c.lines[l], m.start, m.end)
    || (exists i :: 0 <= i < |hits| && hits[i].key == m.key && (hits[i].line < l || hits[i].over))
    || exists i :: 0 <= i < |hits| && Covers(hits[i], l, m.start, m.end) && hits[i].over
  }

  /** A label at a place is accounted for: it does not stand there at a word boundary and over a
      word, its key is out, or a token or a label that is tried before covers some of it. */
  predicate LabelAccounted(c: Setting, l: nat, q: nat, p: nat, hits: seq<Claim>)
    requires l < |c.lines| && q < |c.labels|
  {
    var end := p + |c.labels[q].text| + 1;
    || !At(c.lines[l].text, c.labels[q].text + ":", p) || !AtBoundary(c, c.lines[l].text, p) || NoWords(c.lines[l], p, end)
    || (exists i :: 0 <= i < |hits| && hits[i].key == c.labels[q].key)
    || exists i :: 0 <= i < |hits| && Covers(hits[i], l, p, end) && Prior(c, l, q, hits[i])
  }

  /** A claim on an earlier line, a token, or a label that is tried before label `q`. */
  predicate Prior(c: Setting, l: nat, q: nat, h: Claim)
    requires l < |c.lines|
  {
    h.line < l || (h.line == l && (h.over || exists j :: 0 <= j < q && IsLabel(c, h, j)))
  }

  predicate AllPrior(c: Setting, l: nat, q: nat, hits: seq<Claim>)
    requires l < |c.lines|
  {
    forall i :: 0 <= i < |hits| ==> Prior(c, l, q, hits[i])
  }

  lemma TokenStepPrior(c: Setting, l: nat, j: nat, hits: seq<Claim>)
    requires l < |c.lines| && l < |c.tokens| && j < |c.tokens[l]| && AllPrior(c, l, 0, hits)
    ensures AllPrior(c, l, 0, TokenStep(c, l, j, hits))
  {
    var next := TokenStep(c, l, j, hits);
    forall i | 0 <= i < |next|
      ensures Prior(c, l, 0, next[i])
    {
      if i < |hits| {
        assert Prior(c, l, 0, hits[i]);
      }
    }
  }

  lemma {:induction false} TokensPrior(c: Setting, l: nat, j: nat, hits: seq<Claim>)
    requires l < |c.lines| && l < |c.tokens| && j <= |c.tokens[l]| && AllPrior(c, l, 0, hits)
    ensures AllPrior(c, l, 0, TokensFrom(c, l, j, hits))
    decreases |c.tokens[l]| - j
  {
    if j < |c.tokens[l]| && !Full(c, hits) {
      TokenStepPrior(c, l, j, hits);
      TokensPrior(c, l, j + 1, TokenStep(c, l, j, hits));
    }
  }

  lemma LabelStepPrior(c: Setting, l: nat, j: nat, hits: seq<Claim>)
    requires l < |c.lines| && j < |c.labels| && AllPrior(c, l, j, hits)
    ensures AllPrior(c, l, j + 1, LabelStep(c, l, j, hits))
  {
    var next := LabelStep(c, l, j, hits);
    forall i | 0 <= i < |next|
      ensures Prior(c, l, j + 1, next[i])
    {
      if i < |hits| {
        assert Prior(c, l, j, hits[i]);
      } else {
        FirstFitFits(c, l, c.labels[j].text, hits, 0);
        assert IsLabel(c, next[i], j);
      }
    }
  }

  lemma {:induction false} LabelsPrior(c: Setting, l: nat, j: nat, hits: seq<Claim>)
    requires l < |c.lines| && j <= |c.labels| && AllPrior(c, l, j, hits)
    ensures AllPrior(c, l, |c.labels|, LabelsFrom(c, l, j, hits))
    decreases |c.labels| - j
  {
    if j < |c.labels| && !Full(c, hits) {
      LabelStepPrior(c, l, j, hits);
      LabelsPrior(c, l, j + 1, LabelStep(c, l, j, hits));
    } else {
      PriorGrows(c, l, j, |c.labels|, hits);
    }
  }

  lemma PriorGrows(c: Setting, l: nat, j: nat, q: nat, hits: seq<Claim>)
    requires l < |c.lines| && j <= q && AllPrior(c, l, j, hits)
    ensures AllPrior(c, l, q, hits)
  {
    forall i | 0 <= i < |hits|
      ensures Prior(c, l, q, hits[i])
    {
      assert Prior(c, l, j, hits[i]);
    }
  }

  lemma NextLinePrior(c: Setting, l: nat, hits: seq<Claim>)
    requires l + 1 < |c.lines| && AllPrior(c, l, |c.labels|, hits)
    ensures AllPrior(c, l + 1, 0, hits)
  {
    forall i | 0 <= i < |hits|
      ensures Prior(c, l + 1, 0, hits[i])
    {
      assert Prior(c, l, |c.labels|, hits[i]);
    }
  }

  /** The claims that token `q` meets when its turn comes. */
  lemma {:induction false} TokenReached(c: Setting, l: nat, j: nat, hits: seq<Claim>, q: nat) returns (met: seq<Claim>)
    requires l < |c.lines| && l < |c.tokens| && j <= q < |c.tokens[l]| && AllPrior(c, l, 0, hits)
    requires !Full(c, TokensFrom(c, l, j, hits))
    ensures AllPrior(c, l, 0, met) && Grown(TokenStep(c, l, q, met), TokensFrom(c, l, j, hits))
    decreases |c.tokens[l]| - j
  {
    var next := TokenStep(c, l, j, hits);
    if j < q {
      TokenStepPrior(c, l, j, hits);
      met := TokenReached(c, l, j + 1, next, q);
    } else {
      met := hits;
      TokensGrow(c, l, j + 1, next);
    }
  }

  /** The claims that label `q` meets when its turn comes. */
  lemma {:induction false} LabelReached(c: Setting, l: nat, j: nat, hits: seq<Claim>, q: nat) returns (met: seq<Claim>)
    requires l < |c.lines| && j <= q < |c.labels| && AllPrior(c, l, j, hits)
    requires !Full(c, LabelsFrom(c, l, j, hits))
    ensures AllPrior(c, l, q, met) && Grown(LabelStep(c, l, q, met), LabelsFrom(c, l, j, hits))
    decreases |c.labels| - j
  {
    var next := LabelStep(c, l, j, hits);
    if j < q {
      LabelStepPrior(c, l, j, hits);
      met := LabelReached(c, l, j + 1, next, q);
    } else {
      met := hits;
      LabelsGrow(c, l, j + 1, next);
    }
  }

  lemma GrownTwice(a: seq<Claim>, b: seq<Claim>, d: seq<Claim>)
    requires Grown(a, b) && Grown(b, d)
    ensures Grown(a, d)
  {
  }

  lemma LinePrior(c: Setting, l: nat, hits: seq<Claim>)
    requires |c.tokens| == |c.lines| && l + 1 < |c.lines| && AllPrior(c, l, 0, hits)
    ensures AllPrior(c, l + 1, 0, LineHits(c, l, hits))
  {
    TokensPrior(c, l, 0, hits);
    LabelsPrior(c, l, 0, TokensFrom(c, l, 0, hits));
    NextLinePrior(c, l, LineHits(c, l, hits));
  }

  lemma LineStays(c: Setting, l: nat, hits: seq<Claim>)
    requires |c.tokens| == |c.lines| && l < |c.lines| && !Full(c, LinesFrom(c, l, hits))
    ensures Grown(TokensFrom(c, l, 0, hits), LinesFrom(c, l, hits)) && Grown(LineHits(c, l, hits), LinesFrom(c, l, hits))
  {
    var mid, next := TokensFrom(c, l, 0, hits), LineHits(c, l, hits);
    var all := LinesFrom(c, l + 1, next);
    LabelsGrow(c, l, 0, mid);
    LinesGrow(c, l + 1, next);
    GrownTwice(mid, next, all);
    assert all == LinesFrom(c, l, hits);
  }

  /** Line `at` is reached, and what it adds stays. */
  lemma {:induction false} LineReached(c: Setting, l: nat, hits: seq<Claim>, at: nat) returns (before: seq<Claim>)
    requires |c.tokens| == |c.lines| && l <= at < |c.lines| && !Full(c, LinesFrom(c, l, hits)) && AllPrior(c, l, 0, hits)
    ensures AllPrior(c, at, 0, before)
    ensures Grown(TokensFrom(c, at, 0, before), LinesFrom(c, l, hits))
    ensures Grown(LineHits(c, at, before), LinesFrom(c, l, hits))
    decreases |c.lines| - l
  {
    if l < at {
      LinePrior(c, l, hits);
      before := LineReached(c, l + 1, LineHits(c, l, hits), at);
    } else {
      before := hits;
      LineStays(c, l, hits);
    }
  }

  lemma TokenIsAccounted(c: Setting, l: nat, q: nat, met: seq<Claim>, hits: seq<Claim>)
    requires l < |c.lines| && l < |c.tokens| && q < |c.tokens[l]| && WellMade(c.lines[l])
    requires AllPrior(c, l, 0, met) && Grown(TokenStep(c, l, q, met), hits)
    ensures TokenAccounted(c, l, q, hits)
  {
    var m := c.tokens[l][q];
    NoWordsNoBox(c.lines[l], m.start, m.end);
    if TokenStep(c, l, q, met) != met {
      assert hits[|met|] == Claim(l, m.start, m.end, m.key, true);
    } else if i :| 0 <= i < |met| && met[i].key == m.key {
      assert Prior(c, l, 0, met[i]) && hits[i] == met[i];
    } else if i :| 0 <= i < |met| && Overlap(met[i], l, m.start, m.end) {
      assert Prior(c, l, 0, met[i]) && hits[i] == met[i];
    }
  }

  /** Short of the limit no token is missed. */
  lemma NoTokenIsMissed(c: Setting, l: nat, q: nat)
    requires |c.tokens| == |c.lines| && l < |c.lines| && q < |c.tokens[l]| && WellMade(c.lines[l])
    requires |LinesFrom(c, 0, [])| < AtLeastOne(c.limit)
    ensures TokenAccounted(c, l, q, LinesFrom(c, 0, []))
  {
    var all := LinesFrom(c, 0, []);
    var before := LineReached(c, 0, [], l);
    var met := TokenReached(c, l, 0, before, q);
    GrownTwice(TokenStep(c, l, q, met), TokensFrom(c, l, 0, before), all);
    TokenIsAccounted(c, l, q, met, all);
  }

  lemma LabelIsAccounted(c: Setting, l: nat, q: nat, p: nat, met: seq<Claim>, hits: seq<Claim>)
    requires l < |c.lines| && q < |c.labels| && WellMade(c.lines[l])
    requires AllPrior(c, l, q, met) && Grown(LabelStep(c, l, q, met), hits)
    ensures LabelAccounted(c, l, q, p, hits)
  {
    var text, end := c.labels[q].text, p + |c.labels[q].text| + 1;
    NoWordsNoBox(c.lines[l], p, end);
    if i :| 0 <= i < |met| && met[i].key == c.labels[q].key {
      assert hits[i] == met[i];
    } else if Fits(c, l, text, met, p) {
      FirstFitIsFirst(c, l, text, met, 0, p);
      assert hits[|met|].key == c.labels[q].key;
    } else if i :| 0 <= i < |met| && Overlap(met[i], l, p, end) {
      assert Prior(c, l, q, met[i]) && hits[i] == met[i];
    }
  }

  /** Nor is a label, wherever it stands. */
  lemma NoLabelIsMissed(c: Setting, l: nat, q: nat, p: nat)
    requires |c.tokens| == |c.lines| && l < |c.lines| && q < |c.labels| && WellMade(c.lines[l])
    requires |LinesFrom(c, 0, [])| < AtLeastOne(c.limit)
    ensures LabelAccounted(c, l, q, p, LinesFrom(c, 0, []))
  {
    var all := LinesFrom(c, 0, []);
    var before := LineReached(c, 0, [], l);
    var mid := TokensFrom(c, l, 0, before);
    TokensPrior(c, l, 0, before);
    var met := LabelReached(c, l, 0, mid, q);
    GrownTwice(LabelStep(c, l, q, met), LineHits(c, l, before), all);
    LabelIsAccounted(c, l, q, p, met, all);
  }

  // Where the boxes lie

  /** The rounded box passes no page edge by more than 0.00001. */
  lemma BoxesStayOnThePage(c: Setting, h: Claim)
    requires h.line < |c.lines| && Sized(c.lines[h.line]) && FieldOf(c, h).Some?
    requires Rounds(c.round5) && c.width(h.key) >= 0.0
    ensures var f := FieldOf(c, h).value;
            && 0.0 <= f.x && 0.0 <= f.y && 0.0 <= f.w && 0.0 <= f.h
            && f.x + f.w <= 1.00001 && f.y + f.h <= 1.00001
  {
    var ln := c.lines[h.line];
    var b := SpanBox(ln, h.start, h.end).value;
    var (x, y, w, hh) := Place(ln.W, ln.H, b, h.over, c.width(h.key));
  }

  lemma Negative(x: real, d: real)
    requires x < 0.0 && d > 0.0
    ensures x * d < 0.0
  {
  }

  lemma Ratio(a: real, b: real, d: real)
    requires d > 0.0 && a <= b
    ensures a / d <= b / d
    ensures (b - a) / d == b / d - a / d
    ensures 0.0 / d == 0.0 && d / d == 1.0
  {
    var p, q := a / d, b / d;
    assert p * d == a && q * d == b;
    assert (q - p) * d == b - a;
    if q - p < 0.0 {
      Negative(q - p, d);
      assert false;
    }
  }

  /** A token's box holds all of the token that is on the page. */
  lemma TokenBoxHoldsToken(W: real, H: real, b: Box, minW: real)
    requires W > 0.0 && H > 0.0 && minW >= 0.0
    requires 0.0 <= b.x0 <= b.x1 <= W && 0.0 <= b.top <= b.bottom <= H
    ensures var (x, y, w, h) := Place(W, H, b, true, minW);
            x <= b.x0 / W && b.x1 / W <= x + w && y <= b.top / H && b.bottom / H <= y + h
  {
    Ratio(0.0, b.x0, W);
    Ratio(b.x0, b.x1, W);
    Ratio(b.x1, W, W);
    Ratio(0.0, b.top, H);
    Ratio(b.top, b.bottom, H);
    Ratio(b.bottom, H, H);
  }

  /** Rounded, the field of a token still holds its words, but for 0.00001 at each edge. */
  lemma TokenFieldHoldsToken(c: Setting, h: Claim)
    requires h.line < |c.lines| && Sized(c.lines[h.line]) && FieldOf(c, h).Some? && h.over
    requires Rounds(c.round5) && c.width(h.key) >= 0.0
    requires var ln, b := c.lines[h.line], SpanBox(c.lines[h.line], h.start, h.end).value;
             0.0 <= b.x0 <= b.x1 <= ln.W && 0.0 <= b.top <= b.bottom <= ln.H
    ensures var ln, b, f := c.lines[h.line], SpanBox(c.lines[h.line], h.start, h.end).value, FieldOf(c, h).value;
            && f.x - 0.00001 <= b.x0 / ln.W && b.x1 / ln.W <= f.x + f.w + 0.00001
            && f.y - 0.00001 <= b.top / ln.H && b.bottom / ln.H <= f.y + f.h + 0.00001
  {
    var ln := c.lines[h.line];
    var b := SpanBox(ln, h.start, h.end).value;
    TokenBoxHoldsToken(ln.W, ln.H, b, c.width(h.key));
    var (x, y, w, hh) := Place(ln.W, ln.H, b, true, c.width(h.key));
    assert c.round5(x) <= x + 0.000005 && c.round5(y) <= y + 0.000005;
    assert c.round5(w) >= w - 0.000005 && c.round5(hh) >= hh - 0.000005;
    assert c.round5(x) >= x - 0.000005 && c.round5(y) >= y - 0.000005;
  }

  /** A label's box begins six points to its right, or ends at the page's edge. */
  lemma LabelBoxIsRightOfLabel(W: real, H: real, b: Box, minW: real)
    requires W > 0.0 && H > 0.0 && minW >= 0.0 && b.x1 >= 0.0
    ensures var (x, y, w, h) := Place(W, H, b, false, minW); x == (b.x1 + 6.0) / W || (x + w == 1.0 && x < (b.x1 + 6.0) / W)
  {
    Ratio(0.0, b.x1 + 6.0, W);
  }

  /** Rounded, the field of a label begins six points to its right, or ends at the page's edge,
      but for 0.00001. */
  lemma LabelFieldIsRightOfLabel(c: Setting, h: Claim)
    requires h.line < |c.lines| && Sized(c.lines[h.line]) && FieldOf(c, h).Some? && !h.over
    requires Rounds(c.round5) && c.width(h.key) >= 0.0 && SpanBox(c.lines[h.line], h.start, h.end).value.x1 >= 0.0
    ensures var ln, b, f := c.lines[h.line], SpanBox(c.lines[h.line], h.start, h.end).value, FieldOf(c, h).value;
            var right := (b.x1 + 6.0) / ln.W;
            || right - 0.00001 <= f.x <= right + 0.00001
            || (1.0 - 0.00001 <= f.x + f.w <= 1.0 + 0.00001 && f.x < right + 0.00001)
  {
    var ln := c.lines[h.line];
    var b := SpanBox(ln, h.start, h.end).value;
    LabelBoxIsRightOfLabel(ln.W, ln.H, b, c.width(h.key));
    var (x, y, w, hh) := Place(ln.W, ln.H, b, false, c.width(h.key));
    assert x - 0.000005 <= c.round5(x) <= x + 0.000005 && w - 0.000005 <= c.round5(w) <= w + 0.000005;
  }

  predicate Near(a: real, b: real) {
    b - 0.00001 <= a <= b + 0.00001
  }

  /** The size a claim's field is due, in points: a token's own, or the default width and 22 points
      of height, whichever is more. */
  function DueWidth(b: Box, over: bool, minW: real): real {
    if over then MaxReal(b.x1 - b.x0, minW) else minW
  }

  function DueHeight(b: Box): real {
    MaxReal(b.bottom - b.top, 22.0)
  }

  lemma MaxRatio(a: real, b: real, d: real)
    requires d > 0.0
    ensures MaxReal(a / d, b / d) == MaxReal(a, b) / d
  {
    if a <= b { Ratio(a, b, d); } else { Ratio(b, a, d); }
  }

  lemma PlaceIsLevel(W: real, H: real, b: Box, over: bool, minW: real)
    requires W > 0.0 && H > 0.0 && b.top >= 0.0
    ensures var (x, y, w, h) := Place(W, H, b, over, minW);
            && w == MinReal(DueWidth(b, over, minW) / W, 1.0) && h == MinReal(DueHeight(b) / H, 1.0)
            && (y == b.top / H || (y + h == 1.0 && y < b.top / H))
  {
    MaxRatio(b.x1 - b.x0, minW, W);
    MaxRatio(b.bottom - b.top, 22.0, H);
    Ratio(0.0, b.top, H);
  }

  /** Rounded, every field has the size it is due, as far as the page has it, and begins level with
      its token or label, or ends at the page's foot, but for 0.00001. */
  lemma FieldIsLevelAndOfItsSize(c: Setting, h: Claim)
    requires h.line < |c.lines| && Sized(c.lines[h.line]) && FieldOf(c, h).Some?
    requires Rounds(c.round5) && SpanBox(c.lines[h.line], h.start, h.end).value.top >= 0.0
    ensures var ln, b, f := c.lines[h.line], SpanBox(c.lines[h.line], h.start, h.end).value, FieldOf(c, h).value;
            && f.page == ln.page && f.key == h.key
            && Near(f.w, MinReal(DueWidth(b, h.over, c.width(h.key)) / ln.W, 1.0)) && Near(f.h, MinReal(DueHeight(b) / ln.H, 1.0))
            && (Near(f.y, b.top / ln.H) || (Near(f.y + f.h, 1.0) && f.y < b.top / ln.H + 0.00001))
  {
    var ln := c.lines[h.line];
    var b := SpanBox(ln, h.start, h.end).value;
    PlaceIsLevel(ln.W, ln.H, b, h.over, c.width(h.key));
    var (x, y, w, hh) := Place(ln.W, ln.H, b, h.over, c.width(h.key));
    assert y - 0.000005 <= c.round5(y) <= y + 0.000005 && w - 0.000005 <= c.round5(w) <= w + 0.000005;
    assert hh - 0.000005 <= c.round5(hh) <= hh + 0.000005;
  }
}
