/** Text anchors (`_mk_line`, `_find_anchor`, `_bbox_from_charspan` in sign/esign.py): from a
    match in a line's text back to the words on the page. Texts are in lower case already. */
module Anchors {
  import opened Basics

  datatype Word = Word(text: string, x0: real, x1: real, top: real, bottom: real)
  datatype Line = Line(page: nat, W: real, H: real, words: seq<Word>, text: string, charWord: seq<int>)

  // The text of a line, and the word each character belongs to

  function Text(ws: seq<Word>, n: nat): string
    requires n <= |ws|
    decreases n, 0
  {
    if n == 0 then [] else Padded(ws, n - 1) + ws[n - 1].text
  }

  /** The text before word `n`: with a blank, unless there is no text yet. */
  function Padded(ws: seq<Word>, n: nat): string
    requires n <= |ws|
    decreases n, 1
  {
    var t := Text(ws, n);
    if t == [] then [] else t + [' ']
  }

  function Fill(i: int, n: nat): (r: seq<int>)
    ensures |r| == n && forall k :: 0 <= k < n ==> r[k] == i
  {
    seq(n, k => i)
  }

  function CharWord(ws: seq<Word>, n: nat): (r: seq<int>)
    requires n <= |ws|
    ensures |r| == |Text(ws, n)|
  {
    if n == 0 then []
    else CharWord(ws, n - 1) + Fill(-1, |Padded(ws, n - 1)| - |Text(ws, n - 1)|) + Fill(n - 1, |ws[n - 1].text|)
  }

  predicate Sized(ln: Line) {
    ln.W > 0.0 && ln.H > 0.0
  }

  /** A line as `_mk_line` makes it. */
  predicate WellMade(ln: Line) {
    Sized(ln) && ln.text == Text(ln.words, |ln.words|) && ln.charWord == CharWord(ln.words, |ln.words|)
  }

  method MakeLine(page: nat, W: real, H: real, words: seq<Word>) returns (ln: Line)
    requires W > 0.0 && H > 0.0
    ensures WellMade(ln) && ln.page == page && ln.W == W && ln.H == H && ln.words == words
  {
    var text := "";
    var charWord := [];
    for i := 0 to |words|
      invariant text == Text(words, i) && charWord == CharWord(words, i)
    {
      var t := words[i].text;
      if text != [] {
        text := text + " ";
        charWord := charWord + [-1];
      }
      charWord := AppendFor(charWord, i, t);
      text := text + t;
    }
    return Line(page, W, H, words, text, charWord);
  }

  /** The word's number, once for each of its characters. */
  method AppendFor(before: seq<int>, i: int, t: string) returns (charWord: seq<int>)
    ensures charWord == before + Fill(i, |t|)
  {
    charWord := before;
    for k := 0 to |t|
      invariant charWord == before + Fill(i, k)
    {
      charWord := charWord + [i];
    }
  }

  lemma {:induction false} TextGrows(ws: seq<Word>, m: nat, n: nat)
    requires m <= n <= |ws|
    ensures |Text(ws, m)| <= |Text(ws, n)|
    ensures Text(ws, n)[..|Text(ws, m)|] == Text(ws, m)
    ensures CharWord(ws, n)[..|Text(ws, m)|] == CharWord(ws, m)
  {
    if m < n {
      TextGrows(ws, m, n - 1);
    }
  }

  lemma {:induction false} WordOfChar(ws: seq<Word>, n: nat, k: nat)
    requires n <= |ws| && k < |Text(ws, n)|
    ensures var i := CharWord(ws, n)[k];
            && -1 <= i < n
            && (i == -1 ==> Text(ws, n)[k] == ' ')
            && (i >= 0 ==> var at := |Padded(ws, i)|; at <= k < at + |ws[i].text| && Text(ws, n)[k] == ws[i].text[k - at])
  {
    if k < |Text(ws, n - 1)| {
      WordOfChar(ws, n - 1, k);
      TextGrows(ws, n - 1, n);
    }
  }

  lemma CharsOfWord(ws: seq<Word>, i: nat, k: nat)
    requires i < |ws| && |Padded(ws, i)| <= k < |Padded(ws, i)| + |ws[i].text|
    ensures k < |Text(ws, |ws|)| && CharWord(ws, |ws|)[k] == i
  {
    TextGrows(ws, i + 1, |ws|);
    assert CharWord(ws, |ws|)[k] == CharWord(ws, i + 1)[k];
  }

  /** `char_word` has the length of the text, gives each character of word `i` the number `i`
      and no other character a number, and what has no number is a blank. */
  lemma EveryCharacterKnowsItsWord(ln: Line, i: nat, k: nat)
    requires WellMade(ln) && i < |ln.words| && k < |ln.text|
    ensures |ln.charWord| == |ln.text|
    ensures var at := |Padded(ln.words, i)|;
            && ln.charWord[k] == i <==> at <= k < at + |ln.words[i].text|
    ensures ln.charWord[k] == i ==> ln.text[k] == ln.words[i].text[k - |Padded(ln.words, i)|]
    ensures -1 <= ln.charWord[k] < |ln.words| && (ln.charWord[k] == -1 ==> ln.text[k] == ' ')
  {
    WordOfChar(ln.words, |ln.words|, k);
    if |Padded(ln.words, i)| <= k < |Padded(ln.words, i)| + |ln.words[i].text| {
      CharsOfWord(ln.words, i, k);
    }
  }

  // The needle

  function WordLength(s: string): (n: nat)
    ensures n <= |s| && (s != [] && !IsSpace(s[0]) ==> n > 0)
    ensures forall i :: 0 <= i < n ==> !IsSpace(s[i])
  {
    if s == [] || IsSpace(s[0]) then 0 else 1 + WordLength(s[1..])
  }

  /** `" ".join(s.split())`. */
  function Needle(s: string): (r: string)
    ensures r != [] ==> r[0] != ' '
    decreases |s|
  {
    var t := SkipSpaces(s);
    if t == [] then []
    else
      var n := WordLength(t);
      var rest := Needle(t[n..]);
      if rest == [] then t[..n] else t[..n] + [' '] + rest
  }

  // Matches

  predicate At(hay: string, needle: string, p: nat) {
    p + |needle| <= |hay| && hay[p..p + |needle|] == needle
  }

  /** `str.find`. */
  function Find(hay: string, needle: string, start: nat): (p: int)
    ensures p >= -1 && (p >= 0 ==> start <= p && At(hay, needle, p))
    ensures forall q :: start <= q < (if p >= 0 then p else |hay| + 1) ==> !At(hay, needle, q)
    decreases |hay| + 1 - start
  {
    if start + |needle| > |hay| then -1
    else if At(hay, needle, start) then start
    else Find(hay, needle, start + 1)
  }

  datatype Match = Match(line: nat, pos: nat)

  /** All matches in line `l` from `start` on; they may overlap. */
  function LineMatches(hay: string, needle: string, l: nat, start: nat): (r: seq<Match>)
    requires needle != []
    ensures forall i :: 0 <= i < |r| ==> r[i].line == l && r[i].pos >= start
    decreases |hay| + 1 - start
  {
    var p := Find(hay, needle, start);
    if p < 0 then [] else [Match(l, p)] + LineMatches(hay, needle, l, p + 1)
  }

  lemma {:induction false} LineMatchesHas(hay: string, needle: string, l: nat, start: nat, q: nat)
    requires needle != [] && start <= q && At(hay, needle, q)
    ensures Match(l, q) in LineMatches(hay, needle, l, start)
    decreases |hay| + 1 - start
  {
    var p := Find(hay, needle, start);
    if p < q {
      LineMatchesHas(hay, needle, l, p + 1, q);
    }
  }

  /** All matches in the document, in reading order, from line `l` on. */
  function DocMatches(lines: seq<Line>, needle: string, l: nat): (r: seq<Match>)
    requires needle != [] && l <= |lines|
    ensures forall i :: 0 <= i < |r| ==> l <= r[i].line < |lines|
    decreases |lines| - l
  {
    if l == |lines| then []
    else LineMatches(lines[l].text, needle, l, 0) + DocMatches(lines, needle, l + 1)
  }

  lemma {:induction false} LineMatchesStand(hay: string, needle: string, l: nat, start: nat, i: nat)
    requires needle != [] && i < |LineMatches(hay, needle, l, start)|
    ensures At(hay, needle, LineMatches(hay, needle, l, start)[i].pos)
    decreases |hay| + 1 - start
  {
    if i > 0 {
      LineMatchesStand(hay, needle, l, Find(hay, needle, start) + 1, i - 1);
    }
  }

  lemma {:induction false} DocMatchesStand(lines: seq<Line>, needle: string, l: nat, i: nat)
    requires needle != [] && l <= |lines| && i < |DocMatches(lines, needle, l)|
    ensures var m := DocMatches(lines, needle, l)[i]; At(lines[m.line].text, needle, m.pos)
    decreases |lines| - l
  {
    var here := LineMatches(lines[l].text, needle, l, 0);
    if i < |here| {
      LineMatchesStand(lines[l].text, needle, l, 0, i);
    } else {
      DocMatchesStand(lines, needle, l + 1, i - |here|);
    }
  }

  predicate Before(a: Match, b: Match) {
    a.line < b.line || (a.line == b.line && a.pos < b.pos)
  }

  lemma {:induction false} LineMatchesAscend(hay: string, needle: string, l: nat, start: nat, i: nat, j: nat)
    requires needle != [] && i < j < |LineMatches(hay, needle, l, start)|
    ensures Before(LineMatches(hay, needle, l, start)[i], LineMatches(hay, needle, l, start)[j])
    decreases |hay| + 1 - start
  {
    var p := Find(hay, needle, start);
    if i > 0 {
      LineMatchesAscend(hay, needle, l, p + 1, i - 1, j - 1);
    }
  }

  lemma {:induction false} DocMatchesAscend(lines: seq<Line>, needle: string, l: nat, i: nat, j: nat)
    requires needle != [] && l <= |lines| && i < j < |DocMatches(lines, needle, l)|
    ensures Before(DocMatches(lines, needle, l)[i], DocMatches(lines, needle, l)[j])
    decreases |lines| - l
  {
    var here := LineMatches(lines[l].text, needle, l, 0);
    if j < |here| {
      LineMatchesAscend(lines[l].text, needle, l, 0, i, j);
    } else if i >= |here| {
      DocMatchesAscend(lines, needle, l + 1, i - |here|, j - |here|);
    }
  }

  lemma {:induction false} DocMatchesHas(lines: seq<Line>, needle: string, l: nat, m: Match)
    requires needle != [] && l <= m.line < |lines| && At(lines[m.line].text, needle, m.pos)
    ensures m in DocMatches(lines, needle, l)
    decreases |lines| - l
  {
    if l == m.line {
      LineMatchesHas(lines[l].text, needle, l, 0, m.pos);
    } else {
      DocMatchesHas(lines, needle, l + 1, m);
    }
  }

  /** The list holds every place where the needle stands, once, in reading order. */
  lemma DocMatchesListsAll(lines: seq<Line>, needle: string)
    requires needle != []
    ensures var ms := DocMatches(lines, needle, 0);
            && (forall m: Match :: m in ms <==> m.line < |lines| && At(lines[m.line].text, needle, m.pos))
            && (forall i, j :: 0 <= i < j < |ms| ==> Before(ms[i], ms[j]))
  {
    var ms := DocMatches(lines, needle, 0);
    forall i | 0 <= i < |ms|
      ensures At(lines[ms[i].line].text, needle, ms[i].pos)
    {
      DocMatchesStand(lines, needle, 0, i);
    }
    forall m: Match | m.line < |lines| && At(lines[m.line].text, needle, m.pos)
      ensures m in ms
    {
      DocMatchesHas(lines, needle, 0, m);
    }
    forall i, j | 0 <= i < j < |ms|
      ensures Before(ms[i], ms[j])
    {
      DocMatchesAscend(lines, needle, 0, i, j);
    }
  }

  // The box around the touched words

  datatype Box = Box(x0: real, x1: real, top: real, bottom: real)

  function Touched(ln: Line, from: nat, end: nat): set<int> {
    set k | from <= k < end && k < |ln.charWord| && ln.charWord[k] >= 0 :: ln.charWord[k]
  }

  function Hull(ws: seq<Word>, wi: set<int>, n: nat): (r: Option<Box>)
    requires n <= |ws|
    ensures r.None? <==> forall i :: 0 <= i < n ==> i !in wi
  {
    if n == 0 then None
    else
      var b := Hull(ws, wi, n - 1);
      var w := ws[n - 1];
      if n - 1 !in wi then b
      else if b.None? then Some(Box(w.x0, w.x1, w.top, w.bottom))
      else Some(Box(MinReal(b.value.x0, w.x0), MaxReal(b.value.x1, w.x1), MinReal(b.value.top, w.top), MaxReal(b.value.bottom, w.bottom)))
  }

  predicate Holds(b: Box, w: Word) {
    b.x0 <= w.x0 && w.x1 <= b.x1 && b.top <= w.top && w.bottom <= b.bottom
  }

  predicate Inside(a: Box, b: Box) {
    b.x0 <= a.x0 && a.x1 <= b.x1 && b.top <= a.top && a.bottom <= b.bottom
  }

  predicate HoldsAll(b: Box, ws: seq<Word>, wi: set<int>, n: nat)
    requires n <= |ws|
  {
    forall i :: 0 <= i < n && i in wi ==> Holds(b, ws[i])
  }

  /** The hull holds every touched word, and lies inside every box that does. */
  lemma {:induction false} HullIsSmallest(ws: seq<Word>, wi: set<int>, n: nat, b: Box)
    requires n <= |ws| && Hull(ws, wi, n).Some?
    ensures HoldsAll(Hull(ws, wi, n).value, ws, wi, n)
    ensures HoldsAll(b, ws, wi, n) ==> Inside(Hull(ws, wi, n).value, b)
  {
    if Hull(ws, wi, n - 1).Some? {
      HullIsSmallest(ws, wi, n - 1, b);
    }
    if HoldsAll(b, ws, wi, n) {
      assert HoldsAll(b, ws, wi, n - 1);
    }
  }

  method BoxOfSpan(ln: Line, from: nat, end: nat) returns (b: Option<Box>)
    ensures b == Hull(ln.words, Touched(ln, from, end), |ln.words|)
  {
    var wi: set<int> := {};
    var last := if end < |ln.charWord| then end else |ln.charWord|;
    var k := from;
    while k < last
      invariant from <= k && (k <= last || k == from)
      invariant wi == Touched(ln, from, k)
    {
      if ln.charWord[k] >= 0 {
        wi := wi + {ln.charWord[k]};
      }
      k := k + 1;
    }
    assert wi == Touched(ln, from, end);
    b := None;
    for i := 0 to |ln.words|
      invariant b == Hull(ln.words, wi, i)
    {
      if i in wi {
        var w := ln.words[i];
        b := Some(if b.None? then Box(w.x0, w.x1, w.top, w.bottom)
                  else Box(MinReal(b.value.x0, w.x0), MaxReal(b.value.x1, w.x1), MinReal(b.value.top, w.top), MaxReal(b.value.bottom, w.bottom)));
      }
    }
  }

  /** A match touches a word: the needle does not begin with a blank. */
  lemma MatchTouchesAWord(ln: Line, needle: string, p: nat)
    requires WellMade(ln) && needle != [] && needle[0] != ' ' && At(ln.text, needle, p)
    ensures Hull(ln.words, Touched(ln, p, p + |needle|), |ln.words|).Some?
  {
    assert ln.text[p] == needle[0] by { assert ln.text[p..p + |needle|][0] == ln.text[p]; }
    WordOfChar(ln.words, |ln.words|, p);
    assert ln.charWord[p] in Touched(ln, p, p + |needle|);
  }

  datatype Hit = Hit(page: nat, x: real, y: real, w: real, h: real)

  function Normalised(page: nat, b: Box, W: real, H: real): Hit
    requires W > 0.0 && H > 0.0
  {
    Hit(page, b.x0 / W, b.top / H, (b.x1 - b.x0) / W, (b.bottom - b.top) / H)
  }

  /** The hit for a match: its words' hull, in fractions of the page. */
  function HitAt(ln: Line, needle: string, p: nat): Option<Hit>
    requires WellMade(ln)
  {
    var b := Hull(ln.words, Touched(ln, p, p + |needle|), |ln.words|);
    if b.None? then None else Some(Normalised(ln.page, b.value, ln.W, ln.H))
  }

  predicate AllWellMade(lines: seq<Line>) {
    forall l :: 0 <= l < |lines| ==> WellMade(lines[l])
  }

  /** The `index`-th match, counted from one. */
  function Nth(lines: seq<Line>, needle: string, index: int): (r: Option<Match>)
    ensures r.Some? ==> r.value.line < |lines|
  {
    if needle == [] || index < 1 || index > |DocMatches(lines, needle, 0)| then None
    else Some(DocMatches(lines, needle, 0)[index - 1])
  }

  function Answer(lines: seq<Line>, needle: string, index: int): Option<Hit>
    requires AllWellMade(lines)
  {
    match Nth(lines, needle, index)
    case None => None
    case Some(m) => HitAt(lines[m.line], needle, m.pos)
  }

  /** There is an answer exactly when the document has that many matches, overlaps counted. */
  lemma FoundIffEnoughMatches(lines: seq<Line>, needle: string, index: int)
    requires AllWellMade(lines) && needle != [] && needle[0] != ' '
    ensures Answer(lines, needle, index).Some? <==> 1 <= index <= |DocMatches(lines, needle, 0)|
  {
    if 1 <= index <= |DocMatches(lines, needle, 0)| {
      DocMatchesStand(lines, needle, 0, index - 1);
      var m := DocMatches(lines, needle, 0)[index - 1];
      MatchHasHit(lines[m.line], needle, m.pos);
    }
  }

  lemma MatchHasHit(ln: Line, needle: string, p: nat)
    requires WellMade(ln) && needle != [] && needle[0] != ' ' && At(ln.text, needle, p)
    ensures HitAt(ln, needle, p).Some?
  {
    MatchTouchesAWord(ln, needle, p);
  }

  /** Some character of word `i` stands at a place from `p` up to `end` of the line's text. */
  predicate Within(ln: Line, i: nat, p: nat, end: nat)
    requires i < |ln.words|
  {
    var at := |Padded(ln.words, i)|;
    var behind := at + |ln.words[i].text|;
    at < behind && p < end && at < end && p < behind
  }

  lemma WithinIsTouched(ln: Line, i: nat, p: nat, end: nat)
    requires WellMade(ln) && i < |ln.words|
    ensures Within(ln, i, p, end) <==> i in Touched(ln, p, end)
  {
    if Within(ln, i, p, end) {
      var at := |Padded(ln.words, i)|;
      var k := if at < p then p else at;
      CharsOfWord(ln.words, i, k);
      assert ln.charWord[k] == i;
    }
    if i in Touched(ln, p, end) {
      var k: nat :| p <= k < end && k < |ln.charWord| && ln.charWord[k] == i;
      EveryCharacterKnowsItsWord(ln, i, k);
    }
  }

  /** The hit, scaled to the page, holds the word. */
  predicate HitHolds(h: Hit, W: real, H: real, w: Word) {
    h.x * W <= w.x0 && w.x1 <= (h.x + h.w) * W && h.y * H <= w.top && w.bottom <= (h.y + h.h) * H
  }

  predicate HitInside(h: Hit, W: real, H: real, b: Box) {
    b.x0 <= h.x * W && (h.x + h.w) * W <= b.x1 && b.top <= h.y * H && (h.y + h.h) * H <= b.bottom
  }

  lemma Scaled(a: real, b: real, d: real)
    requires d > 0.0
    ensures a / d * d == a && (a / d + (b - a) / d) * d == b
  {
    assert (b - a) / d * d == b - a;
    assert (a / d + (b - a) / d) * d == a / d * d + (b - a) / d * d;
  }

  lemma NormalisedScales(page: nat, b: Box, W: real, H: real)
    requires W > 0.0 && H > 0.0
    ensures var h := Normalised(page, b, W, H);
            h.page == page && h.x * W == b.x0 && (h.x + h.w) * W == b.x1 && h.y * H == b.top && (h.y + h.h) * H == b.bottom
  {
    Scaled(b.x0, b.x1, W);
    Scaled(b.top, b.bottom, H);
  }

  lemma HitIsBox(page: nat, hull: Box, W: real, H: real, w: Word, b: Box)
    requires W > 0.0 && H > 0.0
    ensures HitHolds(Normalised(page, hull, W, H), W, H, w) <==> Holds(hull, w)
    ensures HitInside(Normalised(page, hull, W, H), W, H, b) <==> Inside(hull, b)
  {
    NormalisedScales(page, hull, W, H);
  }

  predicate HoldsWithin(b: Box, ln: Line, p: nat, end: nat) {
    forall i: nat :: i < |ln.words| && Within(ln, i, p, end) ==> Holds(b, ln.words[i])
  }

  lemma HullFrames(ln: Line, p: nat, end: nat, b: Box)
    requires WellMade(ln) && Hull(ln.words, Touched(ln, p, end), |ln.words|).Some?
    ensures var hull := Hull(ln.words, Touched(ln, p, end), |ln.words|).value;
            HoldsWithin(hull, ln, p, end) && (HoldsWithin(b, ln, p, end) ==> Inside(hull, b))
  {
    var wi := Touched(ln, p, end);
    forall i: nat | i < |ln.words|
      ensures Within(ln, i, p, end) <==> i in wi
    {
      WithinIsTouched(ln, i, p, end);
    }
    HullIsSmallest(ln.words, wi, |ln.words|, b);
  }

  /** The hit is on the line's page, holds every word that has a character in the match, and
      lies inside every box that holds those words. */
  ghost predicate Frames(h: Hit, ln: Line, p: nat, end: nat) {
    && h.page == ln.page
    && (forall i: nat :: i < |ln.words| && Within(ln, i, p, end) ==> HitHolds(h, ln.W, ln.H, ln.words[i]))
    && forall b :: HoldsWithin(b, ln, p, end) ==> HitInside(h, ln.W, ln.H, b)
  }

  lemma HitFrames(ln: Line, needle: string, p: nat)
    requires WellMade(ln) && HitAt(ln, needle, p).Some?
    ensures Frames(HitAt(ln, needle, p).value, ln, p, p + |needle|)
  {
    var hull := Hull(ln.words, Touched(ln, p, p + |needle|), |ln.words|).value;
    HullFrames(ln, p, p + |needle|, hull);
    forall i: nat | i < |ln.words| && Within(ln, i, p, p + |needle|)
      ensures HitHolds(HitAt(ln, needle, p).value, ln.W, ln.H, ln.words[i])
    {
      HitIsBox(ln.page, hull, ln.W, ln.H, ln.words[i], hull);
    }
    forall b | HoldsWithin(b, ln, p, p + |needle|)
      ensures HitInside(HitAt(ln, needle, p).value, ln.W, ln.H, b)
    {
      HullFrames(ln, p, p + |needle|, b);
      HitIsBox(ln.page, hull, ln.W, ln.H, Word("", 0.0, 0.0, 0.0, 0.0), b);
    }
  }

  /** Where the answer lies: around the words of the `index`-th match, and no wider. */
  lemma AnswerFramesTheMatch(lines: seq<Line>, needle: string, index: int)
    requires AllWellMade(lines) && Answer(lines, needle, index).Some?
    ensures needle != [] && 1 <= index <= |DocMatches(lines, needle, 0)|
    ensures var m := DocMatches(lines, needle, 0)[index - 1];
            Frames(Answer(lines, needle, index).value, lines[m.line], m.pos, m.pos + |needle|)
  {
    var m := DocMatches(lines, needle, 0)[index - 1];
    HitFrames(lines[m.line], needle, m.pos);
  }

  /** What is still to be scanned: the rest of line `l` from `start`, then the other lines. */
  function Rest(lines: seq<Line>, needle: string, l: nat, start: nat): seq<Match>
    requires needle != [] && l < |lines|
  {
    LineMatches(lines[l].text, needle, l, start) + DocMatches(lines, needle, l + 1)
  }

  lemma ScanStep(lines: seq<Line>, needle: string, l: nat, start: nat)
    requires needle != [] && l < |lines|
    ensures var p := Find(lines[l].text, needle, start);
            Rest(lines, needle, l, start)
            == if p < 0 then DocMatches(lines, needle, l + 1) else [Match(l, p)] + Rest(lines, needle, l, p + 1)
  {
    var p := Find(lines[l].text, needle, start);
    if p < 0 {
      assert [] + DocMatches(lines, needle, l + 1) == DocMatches(lines, needle, l + 1);
    } else {
      Assoc([Match(l, p)], LineMatches(lines[l].text, needle, l, p + 1), DocMatches(lines, needle, l + 1));
    }
  }

  lemma Advance(all: seq<Match>, seen: nat, m: Match, rest: seq<Match>)
    requires seen <= |all| && all[seen..] == [m] + rest
    ensures seen < |all| && all[seen] == m && all[seen + 1..] == rest
  {
    assert all[seen + 1..] == all[seen..][1..];
  }

  method FindMatch(lines: seq<Line>, needle: string, index: int) returns (r: Option<Match>)
    requires needle != []
    ensures r == Nth(lines, needle, index)
    ensures r.Some? ==> At(lines[r.value.line].text, needle, r.value.pos)
  {
    ghost var all := DocMatches(lines, needle, 0);
    var seen: nat := 0;
    for l := 0 to |lines|
      invariant seen <= |all| && all[seen..] == DocMatches(lines, needle, l)
      invariant index < 1 || seen < index
    {
      var hay := lines[l].text;
      var start: nat := 0;
      while true
        invariant start <= |hay| + 1 && seen <= |all| && (index < 1 || seen < index)
        invariant all[seen..] == Rest(lines, needle, l, start)
        decreases |hay| + 1 - start
      {
        var pos := Find(hay, needle, start);
        ScanStep(lines, needle, l, start);
        if pos < 0 {
          break;
        }
        Advance(all, seen, Match(l, pos), Rest(lines, needle, l, pos + 1));
        seen := seen + 1;
        start := pos + 1;
        if seen != index {
          continue;
        }
        return Some(Match(l, pos));
      }
    }
    return None;
  }

  method FindAnchor(lines: seq<Line>, anchor: string, index: int) returns (r: Option<Hit>)
    requires AllWellMade(lines)
    ensures r == Answer(lines, Needle(anchor), index)
  {
    var needle := Needle(anchor);
    if needle == [] {
      return None;
    }
    var m := FindMatch(lines, needle, index);
    if m.None? {
      return None;
    }
    r := HitHere(lines[m.value.line], needle, m.value.pos);
  }

  method HitHere(ln: Line, needle: string, pos: nat) returns (r: Option<Hit>)
    requires WellMade(ln) && needle != [] && needle[0] != ' ' && At(ln.text, needle, pos)
    ensures r.Some? && r == HitAt(ln, needle, pos)
  {
    MatchTouchesAWord(ln, needle, pos);
    var b := BoxOfSpan(ln, pos, pos + |needle|);
    return Some(Normalised(ln.page, b.value, ln.W, ln.H));
  }
}
