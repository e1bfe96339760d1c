/** Word wrap (`_wrap` in sign/pdf_stamp.py), for any way `W` of measuring a text. */
module TextLayout {
  import opened Basics

  /** `s.split(sep)`: never empty. */
  function SplitOn(s: string, sep: char): (parts: seq<string>)
    ensures parts != []
    ensures forall i :: 0 <= i < |parts| ==> sep !in parts[i]
  {
    if s == [] then [[]]
    else
      var rest := SplitOn(s[1..], sep);
      if s[0] == sep then [[]] + rest else [[s[0]] + rest[0]] + rest[1..]
  }

  /** The finished lines and the line being filled. */
  datatype Flow = Flow(out: seq<string>, line: string)

  function BreakChar(W: string -> real, max: real, f: Flow, c: char): Flow {
    if W(f.line + [c]) > max && f.line != [] then Flow(f.out + [f.line], [c]) else Flow(f.out, f.line + [c])
  }

  function HardBreak(W: string -> real, max: real, f: Flow, w: string): Flow
    decreases |w|
  {
    if w == [] then f else HardBreak(W, max, BreakChar(W, max, f, w[0]), w[1..])
  }

  function Feed(W: string -> real, max: real, f: Flow, w: string): Flow {
    var trial := if f.line == [] then w else f.line + [' '] + w;
    if W(trial) <= max || f.line == [] then
      if f.line == [] && W(w) > max then HardBreak(W, max, f, w) else f.(line := trial)
    else Flow(f.out + [f.line], w)
  }

  function FeedAll(W: string -> real, max: real, f: Flow, words: seq<string>): Flow
    decreases |words|
  {
    if words == [] then f else FeedAll(W, max, Feed(W, max, f, words[0]), words[1..])
  }

  function WrapParagraphs(W: string -> real, max: real, out: seq<string>, paras: seq<string>): seq<string>
    decreases |paras|
  {
    if paras == [] then out
    else
      var f := FeedAll(W, max, Flow(out, []), SplitOn(paras[0], ' '));
      WrapParagraphs(W, max, f.out + [f.line], paras[1..])
  }

  function Wrapped(W: string -> real, max: real, text: string): seq<string> {
    WrapParagraphs(W, max, [], SplitOn(text, '\n'))
  }

  method BreakWord(W: string -> real, max: real, before: seq<string>, w: string) returns (out: seq<string>, cur: string)
    ensures Flow(out, cur) == HardBreak(W, max, Flow(before, []), w)
  {
    out, cur := before, [];
    for i := 0 to |w|
      invariant HardBreak(W, max, Flow(before, []), w) == HardBreak(W, max, Flow(out, cur), w[i..])
    {
      assert w[i..][1..] == w[i + 1..];
      if W(cur + [w[i]]) > max && cur != [] {
        out, cur := out + [cur], [w[i]];
      } else {
        cur := cur + [w[i]];
      }
    }
  }

  method FillParagraph(W: string -> real, max: real, before: seq<string>, words: seq<string>) returns (out: seq<string>, line: string)
    ensures Flow(out, line) == FeedAll(W, max, Flow(before, []), words)
  {
    out, line := before, [];
    for i := 0 to |words|
      invariant FeedAll(W, max, Flow(before, []), words) == FeedAll(W, max, Flow(out, line), words[i..])
    {
      assert words[i..][1..] == words[i + 1..];
      var w := words[i];
      var trial := if line == [] then w else line + [' '] + w;
      if W(trial) <= max || line == [] {
        if line == [] && W(w) > max {
          out, line := BreakWord(W, max, out, w);
        } else {
          line := trial;
        }
      } else {
        out, line := out + [line], w;
      }
    }
  }

  method Wrap(W: string -> real, max: real, text: string) returns (out: seq<string>)
    ensures out == Wrapped(W, max, text)
  {
    out := [];
    var paras := SplitOn(text, '\n');
    for i := 0 to |paras|
      invariant Wrapped(W, max, text) == WrapParagraphs(W, max, out, paras[i..])
    {
      assert paras[i..][1..] == paras[i + 1..];
      var line;
      out, line := FillParagraph(W, max, out, SplitOn(paras[i], ' '));
      out := out + [line];
    }
  }

  // Nothing but blanks is lost or moved

  predicate Blank(c: char) {
    c == ' ' || c == '\n'
  }

  function Ink(s: string): string {
    Filter(s, (c: char) => !Blank(c))
  }

  function Same(s: string): string {
    s
  }

  function Flat(lines: seq<string>): string {
    FlatMap(lines, Same)
  }

  function FlowInk(f: Flow): string {
    Ink(Flat(f.out)) + Ink(f.line)
  }

  lemma InkAppend(a: string, b: string)
    ensures Ink(a + b) == Ink(a) + Ink(b)
  {
    FilterAppend(a, b, (c: char) => !Blank(c));
  }

  lemma InkMore(out: seq<string>, line: string)
    ensures Ink(Flat(out + [line])) == Ink(Flat(out)) + Ink(line)
  {
    FlatMapAppend(out, [line], Same);
    assert Flat([line]) == line by { assert [line][1..] == []; assert line + [] == line; }
    InkAppend(Flat(out), line);
  }

  lemma {:induction false} SplitKeepsInk(s: string, sep: char)
    requires Blank(sep)
    ensures Ink(Flat(SplitOn(s, sep))) == Ink(s)
  {
    if s == [] {
      assert Flat([[]]) == [];
    } else {
      SplitKeepsInk(s[1..], sep);
      var rest := SplitOn(s[1..], sep);
      var parts := SplitOn(s, sep);
      InkAppend([s[0]], s[1..]);
      assert [s[0]] + s[1..] == s;
      if s[0] == sep {
        assert parts[1..] == rest;
        assert Flat(parts) == [] + Flat(rest);
        assert [s[0]] == [sep] && Ink([sep]) == [] by { assert [sep][1..] == []; }
        assert [] + Ink(s[1..]) == Ink(s[1..]) && [] + Flat(rest) == Flat(rest);
      } else {
        assert parts[1..] == rest[1..];
        Assoc([s[0]], rest[0], Flat(rest[1..]));
        assert Flat(parts) == [s[0]] + Flat(rest);
        InkAppend([s[0]], Flat(rest));
      }
    }
  }

  lemma BreakCharKeepsInk(W: string -> real, max: real, f: Flow, c: char)
    ensures FlowInk(BreakChar(W, max, f, c)) == FlowInk(f) + Ink([c])
  {
    InkMore(f.out, f.line);
    InkAppend(f.line, [c]);
    Assoc(Ink(Flat(f.out)), Ink(f.line), Ink([c]));
  }

  lemma {:induction false} HardBreakKeepsInk(W: string -> real, max: real, f: Flow, w: string)
    ensures FlowInk(HardBreak(W, max, f, w)) == FlowInk(f) + Ink(w)
    decreases |w|
  {
    if w == [] {
      assert FlowInk(f) + [] == FlowInk(f);
    } else {
      HardBreakKeepsInk(W, max, BreakChar(W, max, f, w[0]), w[1..]);
      BreakCharKeepsInk(W, max, f, w[0]);
      InkAppend([w[0]], w[1..]);
      assert [w[0]] + w[1..] == w;
      Assoc(FlowInk(f), Ink([w[0]]), Ink(w[1..]));
    }
  }

  lemma TrialInk(line: string, w: string)
    ensures Ink(line + [' '] + w) == Ink(line) + Ink(w)
  {
    InkAppend(line + [' '], w);
    InkAppend(line, [' ']);
    assert Ink([' ']) == [] by { assert [' '][1..] == []; }
    assert Ink(line) + [] == Ink(line);
  }

  lemma FeedKeepsInk(W: string -> real, max: real, f: Flow, w: string)
    ensures FlowInk(Feed(W, max, f, w)) == FlowInk(f) + Ink(w)
  {
    Assoc(Ink(Flat(f.out)), Ink(f.line), Ink(w));
    if f.line == [] {
      HardBreakKeepsInk(W, max, f, w);
      assert Ink(f.line) + Ink(w) == Ink(w);
    } else {
      TrialInk(f.line, w);
      InkMore(f.out, f.line);
    }
  }

  lemma {:induction false} FeedAllKeepsInk(W: string -> real, max: real, f: Flow, words: seq<string>)
    ensures FlowInk(FeedAll(W, max, f, words)) == FlowInk(f) + Ink(Flat(words))
    decreases |words|
  {
    if words == [] {
      assert FlowInk(f) + [] == FlowInk(f);
    } else {
      FeedAllKeepsInk(W, max, Feed(W, max, f, words[0]), words[1..]);
      FeedKeepsInk(W, max, f, words[0]);
      InkAppend(words[0], Flat(words[1..]));
      Assoc(FlowInk(f), Ink(words[0]), Ink(Flat(words[1..])));
    }
  }

  lemma ParagraphKeepsInk(W: string -> real, max: real, out: seq<string>, para: string)
    ensures var f := FeedAll(W, max, Flow(out, []), SplitOn(para, ' '));
            Ink(Flat(f.out + [f.line])) == Ink(Flat(out)) + Ink(para)
  {
    var f := FeedAll(W, max, Flow(out, []), SplitOn(para, ' '));
    FeedAllKeepsInk(W, max, Flow(out, []), SplitOn(para, ' '));
    SplitKeepsInk(para, ' ');
    InkMore(f.out, f.line);
    assert Ink(Flat(out)) + [] == Ink(Flat(out));
  }

  lemma {:induction false} ParagraphsKeepInk(W: string -> real, max: real, out: seq<string>, paras: seq<string>)
    ensures Ink(Flat(WrapParagraphs(W, max, out, paras))) == Ink(Flat(out)) + Ink(Flat(paras))
    decreases |paras|
  {
    if paras == [] {
      assert Ink(Flat(out)) + [] == Ink(Flat(out));
    } else {
      var f := FeedAll(W, max, Flow(out, []), SplitOn(paras[0], ' '));
      ParagraphsKeepInk(W, max, f.out + [f.line], paras[1..]);
      ParagraphKeepsInk(W, max, out, paras[0]);
      InkAppend(paras[0], Flat(paras[1..]));
      Assoc(Ink(Flat(out)), Ink(paras[0]), Ink(Flat(paras[1..])));
    }
  }

  /** Read one after the other, the lines hold the text's characters other than blanks and line
      ends: all of them, in order. */
  lemma WrapKeepsEveryCharacter(W: string -> real, max: real, text: string)
    ensures Ink(Flat(Wrapped(W, max, text))) == Ink(text)
  {
    ParagraphsKeepInk(W, max, [], SplitOn(text, '\n'));
    SplitKeepsInk(text, '\n');
    assert [] + Ink(text) == Ink(text);
  }

  // Lines of more than one word fit

  predicate FitsIfBroken(W: string -> real, max: real, line: string) {
    ' ' in line ==> W(line) <= max
  }

  predicate AllFitIfBroken(W: string -> real, max: real, out: seq<string>) {
    forall i :: 0 <= i < |out| ==> FitsIfBroken(W, max, out[i])
  }

  lemma {:induction false} HardBreakFits(W: string -> real, max: real, f: Flow, w: string)
    requires AllFitIfBroken(W, max, f.out) && ' ' !in f.line && ' ' !in w
    ensures var r := HardBreak(W, max, f, w); AllFitIfBroken(W, max, r.out) && ' ' !in r.line
    decreases |w|
  {
    if w != [] {
      HardBreakFits(W, max, BreakChar(W, max, f, w[0]), w[1..]);
    }
  }

  lemma {:induction false} FeedAllFits(W: string -> real, max: real, f: Flow, words: seq<string>)
    requires AllFitIfBroken(W, max, f.out) && FitsIfBroken(W, max, f.line)
    requires forall i :: 0 <= i < |words| ==> ' ' !in words[i]
    ensures var r := FeedAll(W, max, f, words); AllFitIfBroken(W, max, r.out) && FitsIfBroken(W, max, r.line)
    decreases |words|
  {
    if words != [] {
      if f.line == [] {
        HardBreakFits(W, max, f, words[0]);
      }
      FeedAllFits(W, max, Feed(W, max, f, words[0]), words[1..]);
    }
  }

  lemma {:induction false} ParagraphsFit(W: string -> real, max: real, out: seq<string>, paras: seq<string>)
    requires AllFitIfBroken(W, max, out)
    ensures AllFitIfBroken(W, max, WrapParagraphs(W, max, out, paras))
    decreases |paras|
  {
    if paras != [] {
      var f := FeedAll(W, max, Flow(out, []), SplitOn(paras[0], ' '));
      FeedAllFits(W, max, Flow(out, []), SplitOn(paras[0], ' '));
      ParagraphsFit(W, max, f.out + [f.line], paras[1..]);
    }
  }

  /** Every line that contains a space fits the width. */
  lemma LinesWithASpaceFit(W: string -> real, max: real, text: string)
    ensures AllFitIfBroken(W, max, Wrapped(W, max, text))
  {
    ParagraphsFit(W, max, [], SplitOn(text, '\n'));
  }

  // When every line fits

  ghost predicate Monotone(W: string -> real) {
    forall a, b :: W(a) <= W(a + b) && W(b) <= W(a + b)
  }

  predicate Wide(W: string -> real, max: real, s: string) {
    W(s) > max
  }

  predicate Overflows(W: string -> real, max: real, f: Flow) {
    Wide(W, max, f.line) || exists i :: 0 <= i < |f.out| && Wide(W, max, f.out[i])
  }

  /** A word that cannot be made to fit where it is met: a character is wider than the box, or
      the word is and the line already holds something. */
  predicate Stuck(W: string -> real, max: real, line: string, w: string) {
    (Wide(W, max, w) && line != []) || exists i :: 0 <= i < |w| && Wide(W, max, [w[i]])
  }

  /** Some word of the paragraph is stuck, the line growing from `f` on. */
  predicate SomeStuck(W: string -> real, max: real, f: Flow, words: seq<string>)
    decreases |words|
  {
    words != [] && (Stuck(W, max, f.line, words[0]) || SomeStuck(W, max, Feed(W, max, f, words[0]), words[1..]))
  }

  predicate TextStuck(W: string -> real, max: real, out: seq<string>, paras: seq<string>)
    decreases |paras|
  {
    paras != [] && (
      SomeStuck(W, max, Flow(out, []), SplitOn(paras[0], ' ')) ||
      var f := FeedAll(W, max, Flow(out, []), SplitOn(paras[0], ' '));
      TextStuck(W, max, f.out + [f.line], paras[1..]))
  }

  lemma OneMore(W: string -> real, max: real, out: seq<string>, line: string, next: string)
    ensures Overflows(W, max, Flow(out + [line], next)) == (Overflows(W, max, Flow(out, line)) || Wide(W, max, next))
  {
    var more := out + [line];
    assert more[|out|] == line && forall i :: 0 <= i < |out| ==> more[i] == out[i];
  }

  lemma BreakCharOverflows(W: string -> real, max: real, f: Flow, c: char)
    requires Monotone(W) && !Wide(W, max, [])
    ensures Overflows(W, max, BreakChar(W, max, f, c)) == (Overflows(W, max, f) || Wide(W, max, [c]))
  {
    OneMore(W, max, f.out, f.line, [c]);
    assert W(f.line) <= W(f.line + [c]) && W([c]) <= W(f.line + [c]);
    assert f.line == [] ==> f.line + [c] == [c];
  }

  lemma {:induction false} HardBreakOverflows(W: string -> real, max: real, f: Flow, w: string)
    requires Monotone(W) && !Wide(W, max, [])
    ensures Overflows(W, max, HardBreak(W, max, f, w)) == (Overflows(W, max, f) || exists i :: 0 <= i < |w| && Wide(W, max, [w[i]]))
    decreases |w|
  {
    if w != [] {
      HardBreakOverflows(W, max, BreakChar(W, max, f, w[0]), w[1..]);
      BreakCharOverflows(W, max, f, w[0]);
      assert forall i :: 0 <= i < |w| - 1 ==> w[1..][i] == w[i + 1];
      assert forall i :: 1 <= i < |w| ==> w[i] == w[1..][i - 1];
    }
  }

  lemma CharNoWider(W: string -> real, max: real, w: string)
    requires Monotone(W)
    ensures (exists i :: 0 <= i < |w| && Wide(W, max, [w[i]])) ==> Wide(W, max, w)
  {
    forall i | 0 <= i < |w|
      ensures W([w[i]]) <= W(w)
    {
      assert w == w[..i] + ([w[i]] + w[i + 1..]);
      assert W([w[i]]) <= W([w[i]] + w[i + 1..]) <= W(w);
    }
  }

  lemma FeedOverflows(W: string -> real, max: real, f: Flow, w: string)
    requires Monotone(W) && !Wide(W, max, [])
    ensures Overflows(W, max, Feed(W, max, f, w)) == (Overflows(W, max, f) || Stuck(W, max, f.line, w))
  {
    CharNoWider(W, max, w);
    if f.line == [] {
      HardBreakOverflows(W, max, f, w);
    } else {
      OneMore(W, max, f.out, f.line, w);
      assert f.line + [' '] + w == f.line + ([' '] + w);
      assert W(f.line) <= W(f.line + [' '] + w) && W(w) <= W(f.line + [' '] + w);
    }
  }

  lemma {:induction false} FeedAllOverflows(W: string -> real, max: real, f: Flow, words: seq<string>)
    requires Monotone(W) && !Wide(W, max, [])
    ensures Overflows(W, max, FeedAll(W, max, f, words)) == (Overflows(W, max, f) || SomeStuck(W, max, f, words))
    decreases |words|
  {
    if words != [] {
      FeedOverflows(W, max, f, words[0]);
      FeedAllOverflows(W, max, Feed(W, max, f, words[0]), words[1..]);
    }
  }

  predicate AllFit(W: string -> real, max: real, out: seq<string>) {
    forall i :: 0 <= i < |out| ==> !Wide(W, max, out[i])
  }

  lemma {:induction false} ParagraphsOverflow(W: string -> real, max: real, out: seq<string>, paras: seq<string>)
    requires Monotone(W) && !Wide(W, max, [])
    ensures AllFit(W, max, WrapParagraphs(W, max, out, paras)) <==> AllFit(W, max, out) && !TextStuck(W, max, out, paras)
    decreases |paras|
  {
    if paras != [] {
      var words := SplitOn(paras[0], ' ');
      var f := FeedAll(W, max, Flow(out, []), words);
      FeedAllOverflows(W, max, Flow(out, []), words);
      OneMore(W, max, f.out, f.line, []);
      ParagraphsOverflow(W, max, f.out + [f.line], paras[1..]);
    }
  }

  lemma {:induction false} NothingFits(W: string -> real, max: real, out: seq<string>, paras: seq<string>)
    requires Monotone(W) && Wide(W, max, []) && (out != [] || paras != [])
    ensures !AllFit(W, max, WrapParagraphs(W, max, out, paras))
    decreases |paras|
  {
    if paras == [] {
      assert [] + out[0] == out[0] && W([]) <= W([] + out[0]);
    } else {
      var f := FeedAll(W, max, Flow(out, []), SplitOn(paras[0], ' '));
      NothingFits(W, max, f.out + [f.line], paras[1..]);
    }
  }

  /** All lines fit exactly when no word is stuck: no character is wider than the box, and no
      word wider than the box is met on a line that already holds something. */
  lemma AllLinesFitIffNoWordIsStuck(W: string -> real, max: real, text: string)
    requires Monotone(W)
    ensures AllFit(W, max, Wrapped(W, max, text)) <==> !Wide(W, max, []) && !TextStuck(W, max, [], SplitOn(text, '\n'))
  {
    if Wide(W, max, []) {
      NothingFits(W, max, [], SplitOn(text, '\n'));
    } else {
      ParagraphsOverflow(W, max, [], SplitOn(text, '\n'));
    }
  }

  // The same, read off the text

  predicate WideChar(W: string -> real, max: real, w: string) {
    exists i :: 0 <= i < |w| && Wide(W, max, [w[i]])
  }

  /** No empty word stands between words that are not: no doubled blank inside the text. */
  predicate NoGaps(words: seq<string>) {
    forall i, j, k :: 0 <= i < j < k < |words| && words[i] != [] && words[k] != [] ==> words[j] != []
  }

  /** Word `j` cannot be made to fit: one of its characters does not, or it does not and is not
      the first word of its paragraph (`begun`: the line already holds something). */
  predicate Misfit(W: string -> real, max: real, words: seq<string>, j: nat, begun: bool)
    requires j < |words|
  {
    WideChar(W, max, words[j]) || (Wide(W, max, words[j]) && (begun || exists i :: 0 <= i < j && words[i] != []))
  }

  predicate SomeMisfit(W: string -> real, max: real, words: seq<string>, begun: bool) {
    exists j :: 0 <= j < |words| && Misfit(W, max, words, j, begun)
  }

  predicate OnlyEmpty(words: seq<string>) {
    forall j :: 0 <= j < |words| ==> words[j] == []
  }

  lemma {:induction false} BrokenLineHolds(W: string -> real, max: real, f: Flow, w: string)
    ensures HardBreak(W, max, f, w).line != [] <==> f.line != [] || w != []
    decreases |w|
  {
    if w != [] {
      BrokenLineHolds(W, max, BreakChar(W, max, f, w[0]), w[1..]);
    }
  }

  lemma FedLineHolds(W: string -> real, max: real, f: Flow, w: string)
    ensures w != [] ==> Feed(W, max, f, w).line != []
    ensures w == [] && f.line == [] ==> Feed(W, max, f, w).line == []
  {
    BrokenLineHolds(W, max, f, w);
  }

  lemma MisfitsMove(W: string -> real, max: real, words: seq<string>, begun: bool)
    requires words != []
    ensures SomeMisfit(W, max, words, begun)
       <==> Misfit(W, max, words, 0, begun) || SomeMisfit(W, max, words[1..], begun || words[0] != [])
  {
    var rest, later := words[1..], begun || words[0] != [];
    forall j | 0 <= j < |rest|
      ensures Misfit(W, max, rest, j, later) <==> Misfit(W, max, words, j + 1, begun)
    {
      MisfitMoves(W, max, words, j, begun);
    }
    if j :| 0 <= j < |words| && Misfit(W, max, words, j, begun) {
      assert j > 0 ==> Misfit(W, max, rest, j - 1, later);
    }
  }

  lemma MisfitMoves(W: string -> real, max: real, words: seq<string>, j: nat, begun: bool)
    requires j + 1 < |words|
    ensures Misfit(W, max, words[1..], j, begun || words[0] != []) <==> Misfit(W, max, words, j + 1, begun)
  {
    var rest := words[1..];
    assert forall i :: 0 <= i < |rest| ==> rest[i] == words[i + 1];
    if i :| 0 <= i < j + 1 && words[i] != [] {
      assert i > 0 ==> rest[i - 1] != [];
    }
    if i :| 0 <= i < j && rest[i] != [] {
      assert words[i + 1] != [];
    }
  }

  lemma {:induction false} EmptyWordsFit(W: string -> real, max: real, f: Flow, words: seq<string>)
    requires !Wide(W, max, []) && OnlyEmpty(words)
    ensures !SomeStuck(W, max, f, words) && forall begun :: !SomeMisfit(W, max, words, begun)
    decreases |words|
  {
    if words != [] {
      EmptyWordsFit(W, max, Feed(W, max, f, words[0]), words[1..]);
    }
  }

  /** Which words are stuck can be read off the paragraph, without wrapping it. */
  lemma {:induction false} StuckIffMisfit(W: string -> real, max: real, f: Flow, words: seq<string>)
    requires Monotone(W) && !Wide(W, max, []) && NoGaps(words)
    requires f.line != [] && words != [] && words[0] == [] ==> OnlyEmpty(words)
    ensures SomeStuck(W, max, f, words) <==> SomeMisfit(W, max, words, f.line != [])
    decreases |words|
  {
    if OnlyEmpty(words) {
      EmptyWordsFit(W, max, f, words);
    } else {
      var rest, g := words[1..], Feed(W, max, f, words[0]);
      FedLineHolds(W, max, f, words[0]);
      MisfitsMove(W, max, words, f.line != []);
      assert forall i :: 0 <= i < |rest| ==> rest[i] == words[i + 1];
      StuckIffMisfit(W, max, g, rest);
    }
  }

  /** A text without doubled blanks inside its paragraphs. */
  predicate SingleSpaced(paras: seq<string>) {
    forall p :: 0 <= p < |paras| ==> NoGaps(SplitOn(paras[p], ' '))
  }

  predicate LongWordsComeFirst(W: string -> real, max: real, paras: seq<string>) {
    forall p :: 0 <= p < |paras| ==> !SomeMisfit(W, max, SplitOn(paras[p], ' '), false)
  }

  lemma {:induction false} TextStuckIffMisfit(W: string -> real, max: real, out: seq<string>, paras: seq<string>)
    requires Monotone(W) && !Wide(W, max, []) && SingleSpaced(paras)
    ensures TextStuck(W, max, out, paras) <==> !LongWordsComeFirst(W, max, paras)
    decreases |paras|
  {
    if paras != [] {
      var words, rest := SplitOn(paras[0], ' '), paras[1..];
      var f := FeedAll(W, max, Flow(out, []), words);
      StuckIffMisfit(W, max, Flow(out, []), words);
      assert forall p :: 0 <= p < |rest| ==> rest[p] == paras[p + 1];
      TextStuckIffMisfit(W, max, f.out + [f.line], rest);
      assert forall p :: 0 < p < |paras| ==> paras[p] == rest[p - 1];
    }
  }

  /** With single spacing, all lines fit exactly when the empty text fits, no character is wider
      than the box, and every word wider than the box is the first of its paragraph. */
  lemma AllLinesFitIffLongWordsComeFirst(W: string -> real, max: real, text: string)
    requires Monotone(W) && SingleSpaced(SplitOn(text, '\n'))
    ensures AllFit(W, max, Wrapped(W, max, text))
       <==> !Wide(W, max, []) && LongWordsComeFirst(W, max, SplitOn(text, '\n'))
  {
    AllLinesFitIffNoWordIsStuck(W, max, text);
    if !Wide(W, max, []) {
      TextStuckIffMisfit(W, max, [], SplitOn(text, '\n'));
    }
  }

  predicate NoWideWord(W: string -> real, max: real, words: seq<string>) {
    forall j :: 0 <= j < |words| ==> !Wide(W, max, words[j])
  }

  lemma {:induction false} NarrowWordsFlow(W: string -> real, max: real, f: Flow, words: seq<string>)
    requires Monotone(W) && NoWideWord(W, max, words)
    ensures !SomeStuck(W, max, f, words)
    decreases |words|
  {
    if words != [] {
      CharNoWider(W, max, words[0]);
      NarrowWordsFlow(W, max, Feed(W, max, f, words[0]), words[1..]);
    }
  }

  lemma {:induction false} NarrowTextFlows(W: string -> real, max: real, out: seq<string>, paras: seq<string>)
    requires Monotone(W) && forall p :: 0 <= p < |paras| ==> NoWideWord(W, max, SplitOn(paras[p], ' '))
    ensures !TextStuck(W, max, out, paras)
    decreases |paras|
  {
    if paras != [] {
      var words := SplitOn(paras[0], ' ');
      var f := FeedAll(W, max, Flow(out, []), words);
      NarrowWordsFlow(W, max, Flow(out, []), words);
      NarrowTextFlows(W, max, f.out + [f.line], paras[1..]);
    }
  }

  /** However it is spaced, a text with no word wider than the box has all its lines fit. */
  lemma NarrowWordsNeverOverflow(W: string -> real, max: real, text: string)
    requires Monotone(W)
    requires forall p :: 0 <= p < |SplitOn(text, '\n')| ==> NoWideWord(W, max, SplitOn(SplitOn(text, '\n')[p], ' '))
    ensures AllFit(W, max, Wrapped(W, max, text))
  {
    var word := SplitOn(SplitOn(text, '\n')[0], ' ')[0];
    assert [] + word == word && W([]) <= W([] + word);
    NarrowTextFlows(W, max, [], SplitOn(text, '\n'));
    AllLinesFitIffNoWordIsStuck(W, max, text);
  }

  lemma {:induction false} SplitNone(s: string, sep: char)
    requires sep !in s
    ensures SplitOn(s, sep) == [s]
  {
    if s != [] {
      SplitNone(s[1..], sep);
      assert SplitOn(s[1..], sep)[1..] == [] && [s[0]] + s[1..] == s;
    }
  }

  lemma ExampleSplits()
    ensures SplitOn("a bbb", '\n') == ["a bbb"] && SplitOn("a bbb", ' ') == ["a", "bbb"]
  {
    SplitNone("a bbb", '\n');
    SplitNone("bbb", ' ');
    assert "a bbb"[1..] == " bbb" && " bbb"[1..] == "bbb";
    assert SplitOn(" bbb", ' ') == ["", "bbb"];
    assert ["", "bbb"][1..] == ["bbb"] && ['a'] + "" == "a" && ["a"] + ["bbb"] == ["a", "bbb"];
  }

  function Count(s: string): real {
    |s| as real
  }

  /** A long word after a short one is not broken: it overflows its line. */
  lemma LongSecondWordOverflows()
    ensures Wrapped(Count, 2.0, "a bbb") == ["a", "bbb"] && Wide(Count, 2.0, "bbb")
  {
    ExampleSplits();
    var words := ["a", "bbb"];
    assert words[1..] == ["bbb"] && ["bbb"][1..] == [] && ["a bbb"][1..] == [];
    assert Feed(Count, 2.0, Flow([], []), "a") == Flow([], "a");
    assert Feed(Count, 2.0, Flow([], "a"), "bbb") == Flow(["a"], "bbb");
    assert FeedAll(Count, 2.0, Flow([], []), words) == Flow(["a"], "bbb");
  }
}
