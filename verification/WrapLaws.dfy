/** The wrap breaks a line only where it has to, keeps paragraphs apart and leaves alone what fits. */
module WrapLaws {
  import opened Basics
  import opened TextLayout

  // Paragraph by paragraph

  /** The lines of one paragraph. */
  function ParagraphLines(W: string -> real, max: real, para: string): seq<string> {
    var f := FeedAll(W, max, Flow([], []), SplitOn(para, ' '));
    f.out + [f.line]
  }

  lemma {:induction false} HardBreakAfter(W: string -> real, max: real, out: seq<string>, f: Flow, w: string)
    ensures HardBreak(W, max, Flow(out + f.out, f.line), w)
         == Flow(out + HardBreak(W, max, f, w).out, HardBreak(W, max, f, w).line)
    decreases |w|
  {
    if w != [] {
      Assoc(out, f.out, [f.line]);
      HardBreakAfter(W, max, out, BreakChar(W, max, f, w[0]), w[1..]);
    }
  }

  lemma {:induction false} FeedAllAfter(W: string -> real, max: real, out: seq<string>, f: Flow, words: seq<string>)
    ensures FeedAll(W, max, Flow(out + f.out, f.line), words)
         == Flow(out + FeedAll(W, max, f, words).out, FeedAll(W, max, f, words).line)
    decreases |words|
  {
    if words != [] {
      Assoc(out, f.out, [f.line]);
      HardBreakAfter(W, max, out, f, words[0]);
      FeedAllAfter(W, max, out, Feed(W, max, f, words[0]), words[1..]);
    }
  }

  lemma ParagraphAfter(W: string -> real, max: real, out: seq<string>, para: string)
    ensures var f := FeedAll(W, max, Flow(out, []), SplitOn(para, ' ')); f.out + [f.line] == out + ParagraphLines(W, max, para)
  {
    FeedAllAfter(W, max, out, Flow([], []), SplitOn(para, ' '));
    assert out + [] == out;
    Assoc(out, FeedAll(W, max, Flow([], []), SplitOn(para, ' ')).out, [FeedAll(W, max, Flow([], []), SplitOn(para, ' ')).line]);
  }

  function LinesOfAll(W: string -> real, max: real, paras: seq<string>): seq<string> {
    if paras == [] then [] else ParagraphLines(W, max, paras[0]) + LinesOfAll(W, max, paras[1..])
  }

  lemma {:induction false} ParagraphsAfter(W: string -> real, max: real, out: seq<string>, paras: seq<string>)
    ensures WrapParagraphs(W, max, out, paras) == out + LinesOfAll(W, max, paras)
    decreases |paras|
  {
    if paras != [] {
      ParagraphAfter(W, max, out, paras[0]);
      ParagraphsAfter(W, max, out + ParagraphLines(W, max, paras[0]), paras[1..]);
      Assoc(out, ParagraphLines(W, max, paras[0]), LinesOfAll(W, max, paras[1..]));
    }
  }

  /** A text is wrapped paragraph by paragraph: no line has text of two. */
  lemma WrapsEachParagraph(W: string -> real, max: real, text: string)
    ensures Wrapped(W, max, text) == LinesOfAll(W, max, SplitOn(text, '\n'))
  {
    ParagraphsAfter(W, max, [], SplitOn(text, '\n'));
    assert [] + LinesOfAll(W, max, SplitOn(text, '\n')) == LinesOfAll(W, max, SplitOn(text, '\n'));
  }

  // Lines are broken only when full

  function FirstWord(s: string): string {
    if s == [] || s[0] == ' ' then [] else [s[0]] + FirstWord(s[1..])
  }

  /** The first word of `b`, or its first character where a word was broken, does not fit on `a`. */
  predicate Tight(W: string -> real, max: real, a: string, b: string) {
    Wide(W, max, a + [' '] + FirstWord(b)) || (b != [] && Wide(W, max, a + [b[0]]))
  }

  predicate AllTight(W: string -> real, max: real, lines: seq<string>) {
    forall i :: 0 <= i < |lines| - 1 ==> Tight(W, max, lines[i], lines[i + 1])
  }

  lemma {:induction false} FirstWordGrows(b: string, x: string)
    ensures |FirstWord(b)| <= |FirstWord(b + x)| && FirstWord(b + x)[..|FirstWord(b)|] == FirstWord(b)
  {
    if b != [] && b[0] != ' ' {
      assert (b + x)[1..] == b[1..] + x;
      FirstWordGrows(b[1..], x);
    }
  }

  lemma TightGrows(W: string -> real, max: real, a: string, b: string, x: string)
    requires Monotone(W) && Tight(W, max, a, b)
    ensures Tight(W, max, a, b + x)
  {
    FirstWordGrows(b, x);
    var u, v := FirstWord(b), FirstWord(b + x);
    assert a + [' '] + v == (a + [' '] + u) + v[|u|..];
    assert W(a + [' '] + u) <= W(a + [' '] + v);
  }

  /** All lines so far are tight, and so is the one being filled behind the last of them. */
  predicate FlowTight(W: string -> real, max: real, f: Flow) {
    AllTight(W, max, f.out + [f.line])
  }

  lemma LineGrows(W: string -> real, max: real, f: Flow, x: string)
    requires Monotone(W) && FlowTight(W, max, f)
    ensures FlowTight(W, max, Flow(f.out, f.line + x))
  {
    var was, now := f.out + [f.line], f.out + [f.line + x];
    forall i | 0 <= i < |now| - 1
      ensures Tight(W, max, now[i], now[i + 1])
    {
      assert Tight(W, max, was[i], was[i + 1]);
      if i + 1 == |f.out| {
        TightGrows(W, max, was[i], f.line, x);
      }
    }
  }

  lemma LineStarts(W: string -> real, max: real, f: Flow, next: string)
    requires FlowTight(W, max, f) && Tight(W, max, f.line, next)
    ensures FlowTight(W, max, Flow(f.out + [f.line], next))
  {
    var was, now := f.out + [f.line], f.out + [f.line] + [next];
    forall i | 0 <= i < |now| - 1
      ensures Tight(W, max, now[i], now[i + 1])
    {
      if i + 1 < |was| {
        assert Tight(W, max, was[i], was[i + 1]);
      }
    }
  }

  lemma {:induction false} HardBreakTight(W: string -> real, max: real, f: Flow, w: string)
    requires Monotone(W) && FlowTight(W, max, f)
    ensures FlowTight(W, max, HardBreak(W, max, f, w))
    decreases |w|
  {
    if w != [] {
      if W(f.line + [w[0]]) > max && f.line != [] {
        LineStarts(W, max, f, [w[0]]);
      } else {
        LineGrows(W, max, f, [w[0]]);
      }
      HardBreakTight(W, max, BreakChar(W, max, f, w[0]), w[1..]);
    }
  }

  lemma {:induction false} FirstWordOfWord(w: string)
    requires ' ' !in w
    ensures FirstWord(w) == w
  {
    if w != [] {
      FirstWordOfWord(w[1..]);
    }
  }

  lemma FeedTight(W: string -> real, max: real, f: Flow, w: string)
    requires Monotone(W) && FlowTight(W, max, f) && ' ' !in w
    ensures FlowTight(W, max, Feed(W, max, f, w))
  {
    if f.line == [] {
      HardBreakTight(W, max, f, w);
      LineGrows(W, max, f, w);
      assert [] + w == w;
    } else if W(f.line + [' '] + w) <= max {
      LineGrows(W, max, f, [' '] + w);
      assert f.line + ([' '] + w) == f.line + [' '] + w;
    } else {
      FirstWordOfWord(w);
      LineStarts(W, max, f, w);
    }
  }

  lemma {:induction false} FeedAllTight(W: string -> real, max: real, f: Flow, words: seq<string>)
    requires Monotone(W) && FlowTight(W, max, f) && forall i :: 0 <= i < |words| ==> ' ' !in words[i]
    ensures FlowTight(W, max, FeedAll(W, max, f, words))
    decreases |words|
  {
    if words != [] {
      FeedTight(W, max, f, words[0]);
      FeedAllTight(W, max, Feed(W, max, f, words[0]), words[1..]);
    }
  }

  /** Within a paragraph a line ends only where the next word does not fit behind it, or, where a
      word is broken, its next character. */
  lemma LinesBreakOnlyWhenFull(W: string -> real, max: real, para: string)
    requires Monotone(W)
    ensures AllTight(W, max, ParagraphLines(W, max, para))
  {
    FeedAllTight(W, max, Flow([], []), SplitOn(para, ' '));
  }

  // What fits is left alone

  /** The words, each with a blank before it. */
  function Tail(words: seq<string>): string {
    if words == [] then [] else [' '] + words[0] + Tail(words[1..])
  }

  lemma {:induction false} SplitIsUndone(s: string)
    ensures var words := SplitOn(s, ' '); s == words[0] + Tail(words[1..])
  {
    if s != [] {
      SplitIsUndone(s[1..]);
      var rest := SplitOn(s[1..], ' ');
      if s[0] == ' ' {
        assert SplitOn(s, ' ')[1..] == rest;
        assert s == [' '] + s[1..];
        Assoc([' '], rest[0], Tail(rest[1..]));
      } else {
        assert SplitOn(s, ' ')[1..] == rest[1..];
        assert s == [s[0]] + s[1..];
        Assoc([s[0]], rest[0], Tail(rest[1..]));
      }
    }
  }

  lemma {:induction false} TailFits(W: string -> real, max: real, f: Flow, words: seq<string>)
    requires Monotone(W) && f.line != [] && W(f.line + Tail(words)) <= max
    ensures FeedAll(W, max, f, words) == Flow(f.out, f.line + Tail(words))
    decreases |words|
  {
    if words == [] {
      assert f.line + [] == f.line;
    } else {
      var trial := f.line + [' '] + words[0];
      assert f.line + Tail(words) == trial + Tail(words[1..]);
      assert W(trial) <= W(trial + Tail(words[1..]));
      TailFits(W, max, Flow(f.out, trial), words[1..]);
    }
  }

  /** A paragraph that fits, and does not begin with a blank, is one line, unchanged. */
  lemma FittingParagraphIsKept(W: string -> real, max: real, para: string)
    requires Monotone(W) && W(para) <= max && (para != [] ==> para[0] != ' ')
    ensures ParagraphLines(W, max, para) == [para]
  {
    var words := SplitOn(para, ' ');
    SplitIsUndone(para);
    assert W(words[0]) <= W(words[0] + Tail(words[1..]));
    if para == [] {
      assert words == [[]] && words[1..] == [];
      assert FeedAll(W, max, Flow([], []), words) == FeedAll(W, max, Feed(W, max, Flow([], []), words[0]), []) == Flow([], []);
    } else {
      assert words[0] != [];
      TailFits(W, max, Flow([], words[0]), words[1..]);
    }
  }
}
