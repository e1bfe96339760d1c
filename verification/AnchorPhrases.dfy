/** An anchor is a phrase: however its words are spaced, and however far apart they stand on their
    line, the search finds them and frames exactly them. */
module AnchorPhrases {
  import opened Basics
  import opened Anchors

  predicate IsWord(w: string) {
    w != [] && forall i :: 0 <= i < |w| ==> !IsSpace(w[i])
  }

  predicate IsGap(g: string) {
    forall i :: 0 <= i < |g| ==> IsSpace(g[i])
  }

  /** White space around the words, and some between any two of them. */
  predicate Gaps(gaps: seq<string>, words: seq<string>) {
    && |gaps| == |words| + 1 && (forall i :: 0 <= i < |gaps| ==> IsGap(gaps[i]))
    && forall i :: 0 < i < |words| ==> gaps[i] != []
  }

  function Spaced(gaps: seq<string>, words: seq<string>): string
    requires |gaps| == |words| + 1
  {
    if words == [] then gaps[0] else gaps[0] + (words[0] + Spaced(gaps[1..], words[1..]))
  }

  /** The words with one blank between them. */
  function Joined(words: seq<string>): string {
    if words == [] then [] else if |words| == 1 then words[0] else words[0] + [' '] + Joined(words[1..])
  }

  // What is searched for

  lemma {:induction false} GapIsSkipped(g: string, rest: string)
    requires IsGap(g) && (rest != [] ==> !IsSpace(rest[0]))
    ensures SkipSpaces(g + rest) == rest
  {
    if g == [] {
      assert g + rest == rest;
    } else {
      assert (g + rest)[1..] == g[1..] + rest && (g + rest)[0] == g[0];
      GapIsSkipped(g[1..], rest);
    }
  }

  lemma {:induction false} WordIsMeasured(w: string, rest: string)
    requires (forall i :: 0 <= i < |w| ==> !IsSpace(w[i])) && (rest != [] ==> IsSpace(rest[0]))
    ensures WordLength(w + rest) == |w|
  {
    if w == [] {
      assert w + rest == rest;
    } else {
      assert (w + rest)[1..] == w[1..] + rest && (w + rest)[0] == w[0];
      WordIsMeasured(w[1..], rest);
    }
  }

  lemma JoinedIsSomething(words: seq<string>)
    requires forall i :: 0 <= i < |words| ==> IsWord(words[i])
    ensures Joined(words) == [] <==> words == []
  {
  }

  /** After a word comes white space, if anything. */
  lemma AfterWord(gaps: seq<string>, words: seq<string>)
    requires Gaps(gaps, words) && words != []
    ensures var rest := Spaced(gaps[1..], words[1..]); rest != [] ==> IsSpace(rest[0])
  {
  }

  /** Spacing does not matter: the needle is the words with one blank between them. */
  lemma {:induction false} NeedleIsTheWords(gaps: seq<string>, words: seq<string>)
    requires Gaps(gaps, words) && forall i :: 0 <= i < |words| ==> IsWord(words[i])
    ensures Needle(Spaced(gaps, words)) == Joined(words)
  {
    if words == [] {
      GapIsSkipped(gaps[0], []);
      assert gaps[0] + [] == gaps[0];
    } else {
      var rest := Spaced(gaps[1..], words[1..]);
      GapIsSkipped(gaps[0], words[0] + rest);
      AfterWord(gaps, words);
      WordIsMeasured(words[0], rest);
      assert (words[0] + rest)[|words[0]|..] == rest && (words[0] + rest)[..|words[0]|] == words[0];
      NeedleIsTheWords(gaps[1..], words[1..]);
      JoinedIsSomething(words[1..]);
    }
  }

  // Where it stands

  function Texts(ws: seq<Word>): (r: seq<string>)
    ensures |r| == |ws| && forall i :: 0 <= i < |ws| ==> r[i] == ws[i].text
  {
    MapSeq(ws, (w: Word) => w.text)
  }

  predicate AllWords(ws: seq<Word>) {
    forall i :: 0 <= i < |ws| ==> IsWord(ws[i].text)
  }

  lemma {:induction false} JoinedMore(words: seq<string>, w: string)
    requires words != []
    ensures Joined(words + [w]) == Joined(words) + [' '] + w
  {
    assert (words + [w])[1..] == words[1..] + [w];
    if |words| == 1 {
      assert Joined([w]) == w;
    } else {
      JoinedMore(words[1..], w);
      assert words[0] + [' '] + (Joined(words[1..]) + [' '] + w) == words[0] + [' '] + Joined(words[1..]) + [' '] + w;
    }
  }

  /** Places in the text grow with the words. */
  lemma {:induction false} PlacesGrow(ws: seq<Word>, m: nat, n: nat)
    requires m <= n <= |ws|
    ensures |Text(ws, m)| <= |Text(ws, n)|
    ensures m < n ==> |Padded(ws, m)| + |ws[m].text| <= |Text(ws, n)|
  {
    TextGrows(ws, m, n);
    if m < n {
      TextGrows(ws, m + 1, n);
    }
  }

  lemma {:induction false} TextIsNotEmpty(ws: seq<Word>, n: nat)
    requires AllWords(ws) && 0 < n <= |ws|
    ensures Text(ws, n) != []
  {
    assert IsWord(ws[n - 1].text);
  }

  /** The text up to word `j` ends with words `i` to `j - 1`, one blank apart. */
  lemma {:induction false} PhraseEndsText(ws: seq<Word>, i: nat, j: nat)
    requires AllWords(ws) && i < j <= |ws|
    ensures Text(ws, j) == Padded(ws, i) + Joined(Texts(ws[i..j]))
  {
    if j == i + 1 {
      assert ws[i..j] == [ws[i]] && Texts(ws[i..j]) == [ws[i].text];
    } else {
      PhraseEndsText(ws, i, j - 1);
      TextIsNotEmpty(ws, j - 1);
      var before := Texts(ws[i..j - 1]);
      assert Texts(ws[i..j]) == before + [ws[j - 1].text];
      JoinedMore(before, ws[j - 1].text);
      assert Padded(ws, i) + Joined(before) + [' '] + ws[j - 1].text
          == Padded(ws, i) + (Joined(before) + [' '] + ws[j - 1].text);
    }
  }

  lemma PhraseStands(ln: Line, i: nat, j: nat)
    requires WellMade(ln) && AllWords(ln.words) && i < j <= |ln.words|
    ensures At(ln.text, Joined(Texts(ln.words[i..j])), |Padded(ln.words, i)|)
    ensures |Padded(ln.words, i)| + |Joined(Texts(ln.words[i..j]))| == |Text(ln.words, j)|
  {
    var at, needle := |Padded(ln.words, i)|, Joined(Texts(ln.words[i..j]));
    PhraseEndsText(ln.words, i, j);
    TextGrows(ln.words, j, |ln.words|);
    assert ln.text[at..at + |needle|] == ln.text[..at + |needle|][at..];
  }

  /** The words that have a character in the phrase are its words. */
  lemma PhraseHasItsWords(ln: Line, i: nat, j: nat, k: nat)
    requires WellMade(ln) && AllWords(ln.words) && i < j <= |ln.words| && k < |ln.words|
    ensures Within(ln, k, |Padded(ln.words, i)|, |Text(ln.words, j)|) <==> i <= k < j
  {
    var ws := ln.words;
    assert IsWord(ws[k].text) && IsWord(ws[i].text);
    PlacesGrow(ws, i, j);
    if k < i {
      PlacesGrow(ws, k, i);
    } else if k < j {
      PlacesGrow(ws, i, k);
      PlacesGrow(ws, k, j);
    } else {
      PlacesGrow(ws, j, k);
    }
  }

  /** The hit frames words `i` to `j - 1` of the line: it holds each of them and lies inside every
      box that does. */
  ghost predicate FramesWords(h: Hit, ln: Line, i: nat, j: nat)
    requires i < j <= |ln.words|
  {
    && h.page == ln.page && (forall k :: i <= k < j ==> HitHolds(h, ln.W, ln.H, ln.words[k]))
    && forall b :: (forall k :: i <= k < j ==> Holds(b, ln.words[k])) ==> HitInside(h, ln.W, ln.H, b)
  }

  lemma FramesThem(h: Hit, ln: Line, i: nat, j: nat)
    requires WellMade(ln) && AllWords(ln.words) && i < j <= |ln.words|
    requires Frames(h, ln, |Padded(ln.words, i)|, |Text(ln.words, j)|)
    ensures FramesWords(h, ln, i, j)
  {
    forall k: nat | k < |ln.words|
      ensures Within(ln, k, |Padded(ln.words, i)|, |Text(ln.words, j)|) <==> i <= k < j
    {
      PhraseHasItsWords(ln, i, j, k);
    }
    forall b | forall k :: i <= k < j ==> Holds(b, ln.words[k])
      ensures HitInside(h, ln.W, ln.H, b)
    {
      assert HoldsWithin(b, ln, |Padded(ln.words, i)|, |Text(ln.words, j)|);
    }
  }

  /** Some index leads to the place where the phrase stands. */
  lemma PhraseHasIndex(lines: seq<Line>, l: nat, i: nat, j: nat) returns (index: int)
    requires AllWellMade(lines) && l < |lines| && AllWords(lines[l].words) && i < j <= |lines[l].words|
    requires Joined(Texts(lines[l].words[i..j])) != []
    ensures Nth(lines, Joined(Texts(lines[l].words[i..j])), index) == Some(Match(l, |Padded(lines[l].words, i)|))
  {
    var needle, m := Joined(Texts(lines[l].words[i..j])), Match(l, |Padded(lines[l].words, i)|);
    PhraseStands(lines[l], i, j);
    DocMatchesHas(lines, needle, 0, m);
    var at :| 0 <= at < |DocMatches(lines, needle, 0)| && DocMatches(lines, needle, 0)[at] == m;
    index := at + 1;
  }

  lemma PhraseIsFramed(ln: Line, i: nat, j: nat)
    requires WellMade(ln) && AllWords(ln.words) && i < j <= |ln.words|
    ensures var needle := Joined(Texts(ln.words[i..j]));
            && needle != []
            && HitAt(ln, needle, |Padded(ln.words, i)|).Some?
            && FramesWords(HitAt(ln, needle, |Padded(ln.words, i)|).value, ln, i, j)
  {
    var needle, at := Joined(Texts(ln.words[i..j])), |Padded(ln.words, i)|;
    assert IsWord(Texts(ln.words[i..j])[0]);
    NeedleStartsAWord(Texts(ln.words[i..j]));
    PhraseStands(ln, i, j);
    MatchHasHit(ln, needle, at);
    HitFrames(ln, needle, at);
    FramesThem(HitAt(ln, needle, at).value, ln, i, j);
  }

  /** For every run of words on a line, and however the anchor spaces them, some index finds them,
      and the answer frames exactly those words. */
  lemma PhraseIsFound(lines: seq<Line>, l: nat, i: nat, j: nat, gaps: seq<string>) returns (index: int)
    requires AllWellMade(lines) && l < |lines| && AllWords(lines[l].words) && i < j <= |lines[l].words|
    requires Gaps(gaps, Texts(lines[l].words[i..j]))
    ensures var h := Answer(lines, Needle(Spaced(gaps, Texts(lines[l].words[i..j]))), index);
            h.Some? && FramesWords(h.value, lines[l], i, j)
  {
    NeedleIsTheWords(gaps, Texts(lines[l].words[i..j]));
    PhraseIsFramed(lines[l], i, j);
    index := PhraseHasIndex(lines, l, i, j);
  }

  lemma NeedleStartsAWord(words: seq<string>)
    requires words != [] && IsWord(words[0])
    ensures Joined(words) != [] && Joined(words)[0] != ' '
  {
    assert !IsSpace(words[0][0]);
  }
}
