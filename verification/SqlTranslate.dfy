/** `_translate_sql` (sign/db.py): from `?` and `:name` placeholders to the `%s` and
    `%(name)s` of a driver with the format and pyformat styles of PEP 249, 'Globals'. */
module SqlTranslate {
  import opened Basics

  /** The character classes of the host language, as far as the scanner needs them. */
  datatype Letters = Letters(alpha: char -> bool, alnum: char -> bool)

  ghost predicate Sane(k: Letters) {
    && (forall c :: k.alpha(c) ==> k.alnum(c))
    && !k.alnum(')') && !k.alnum('\'') && !k.alnum('?') && !k.alnum(':')
  }

  predicate StartsName(k: Letters, c: char) {
    k.alpha(c) || c == '_'
  }

  predicate InName(k: Letters, c: char) {
    k.alnum(c) || c == '_'
  }

  datatype Token = Lit(c: char) | Pos | Named(name: string)

  /** Where the name characters from `i` on stop. */
  function NameEnd(k: Letters, s: string, i: nat): (j: nat)
    requires i <= |s|
    ensures i <= j <= |s|
    ensures forall x :: i <= x < j ==> InName(k, s[x])
    ensures j < |s| ==> !InName(k, s[j])
    decreases |s| - i
  {
    if i == |s| || !InName(k, s[i]) then i else NameEnd(k, s, i + 1)
  }

  /** What the scanner reads at one place: some tokens, where it goes on, and whether that is
      inside a quoted string. */
  datatype Step = Step(tokens: seq<Token>, end: nat, quoted: bool)

  function First(k: Letters, s: string, i: nat, quoted: bool): (r: Step)
    requires i < |s|
    ensures i < r.end <= |s| && r.tokens != []
  {
    if s[i] == '\'' then Step([Lit('\'')], i + 1, !quoted)
    else if quoted then Step([Lit(s[i])], i + 1, quoted)
    else if s[i] == '?' then Step([Pos], i + 1, quoted)
    else if s[i] == ':' && i + 1 < |s| && s[i + 1] == ':' then Step([Lit(':'), Lit(':')], i + 2, quoted)
    else if s[i] == ':' && i + 1 < |s| && StartsName(k, s[i + 1]) then
      var j := NameEnd(k, s, i + 1);
      Step([Named(s[i + 1..j])], j, quoted)
    else Step([Lit(s[i])], i + 1, quoted)
  }

  /** What a statement says from place `i` on. */
  function Lex(k: Letters, s: string, i: nat, quoted: bool): seq<Token>
    requires i <= |s|
    decreases |s| - i
  {
    if i == |s| then []
    else
      var f := First(k, s, i, quoted);
      f.tokens + Lex(k, s, f.end, f.quoted)
  }

  function Written(t: Token): string {
    match t
    case Lit(c) => if c == '%' then "%%" else [c]
    case Pos => "%s"
    case Named(name) => "%(" + name + ")s"
  }

  function Render(ts: seq<Token>): string {
    FlatMap(ts, Written)
  }

  lemma FlatMapFew<S, T>(s: seq<S>, f: S -> seq<T>)
    ensures |s| == 1 ==> FlatMap(s, f) == f(s[0])
    ensures |s| == 2 ==> FlatMap(s, f) == f(s[0]) + f(s[1])
  {
    if |s| == 1 {
      assert f(s[0]) + [] == f(s[0]);
    } else if |s| == 2 {
      assert f(s[1]) + [] == f(s[1]);
      assert s[1..][0] == s[1] && s[1..][1..] == [];
    }
  }

  /** The output after one more step of the scan. */
  lemma RenderStep(k: Letters, s: string, i: nat, quoted: bool, seen: seq<Token>)
    requires i < |s| && Lex(k, s, 0, false) == seen + Lex(k, s, i, quoted)
    ensures var f := First(k, s, i, quoted);
            && Lex(k, s, 0, false) == seen + f.tokens + Lex(k, s, f.end, f.quoted)
            && Render(seen + f.tokens) == Render(seen) + Render(f.tokens)
            && Render(f.tokens) == if |f.tokens| == 2 then "::" else Written(f.tokens[0])
  {
    var f := First(k, s, i, quoted);
    FlatMapAppend(seen, f.tokens, Written);
    FlatMapFew(f.tokens, Written);
    Assoc(seen, f.tokens, Lex(k, s, f.end, f.quoted));
  }

  method Translate(k: Letters, sql: string) returns (out: string)
    ensures out == Render(Lex(k, sql, 0, false))
  {
    out := [];
    var inStr := false;
    var i := 0;
    var n := |sql|;
    ghost var seen: seq<Token> := [];
    while i < n
      invariant 0 <= i <= n
      invariant out == Render(seen)
      invariant Lex(k, sql, 0, false) == seen + Lex(k, sql, i, inStr)
    {
      ghost var f := First(k, sql, i, inStr);
      RenderStep(k, sql, i, inStr, seen);
      seen := seen + f.tokens;
      var c := sql[i];
      if c == '\'' {
        inStr := !inStr;
        out := out + [c];
        i := i + 1;
      } else if inStr {
        out := out + if c == '%' then "%%" else [c];
        i := i + 1;
      } else if c == '%' {
        out := out + "%%";
        i := i + 1;
      } else if c == '?' {
        out := out + "%s";
        i := i + 1;
      } else if c == ':' && i + 1 < n && sql[i + 1] == ':' {
        out := out + "::";
        i := i + 2;
      } else if c == ':' && i + 1 < n && (k.alpha(sql[i + 1]) || sql[i + 1] == '_') {
        var j := SkipName(k, sql, i + 1);
        out := out + ("%(" + sql[i + 1..j] + ")s");
        i := j;
      } else {
        out := out + [c];
        i := i + 1;
      }
      assert i == f.end && inStr == f.quoted;
    }
    assert seen + [] == seen;
  }

  method SkipName(k: Letters, sql: string, i: nat) returns (j: nat)
    requires i <= |sql|
    ensures j == NameEnd(k, sql, i)
  {
    j := i;
    while j < |sql| && (k.alnum(sql[j]) || sql[j] == '_')
      invariant i <= j <= |sql|
      invariant NameEnd(k, sql, i) == NameEnd(k, sql, j)
    {
      j := j + 1;
    }
  }

  // What the driver reads back

  /** The characters up to the first ')'. */
  function UpToClose(s: string): string {
    if s == [] || s[0] == ')' then [] else [s[0]] + UpToClose(s[1..])
  }

  /** The driver's reading of a statement that is run with parameters; None where it raises. */
  function Decode(s: string): Option<seq<Token>>
    decreases |s|
  {
    if s == [] then Some([])
    else if s[0] != '%' then Cons(Lit(s[0]), Decode(s[1..]))
    else if |s| < 2 then None
    else if s[1] == '%' then Cons(Lit('%'), Decode(s[2..]))
    else if s[1] == 's' then Cons(Pos, Decode(s[2..]))
    else if s[1] == '(' then
      var name := UpToClose(s[2..]);
      if |s| >= |name| + 4 && s[|name| + 2..|name| + 4] == ")s" then Cons(Named(name), Decode(s[|name| + 4..])) else None
    else None
  }

  function Cons(t: Token, ts: Option<seq<Token>>): Option<seq<Token>> {
    if ts.None? then None else Some([t] + ts.value)
  }

  predicate Readable(t: Token) {
    t.Named? ==> forall i :: 0 <= i < |t.name| ==> t.name[i] != ')'
  }

  lemma {:induction false} UpToCloseFinds(name: string, rest: string)
    requires Readable(Named(name))
    ensures UpToClose(name + [')'] + rest) == name
  {
    if name != [] {
      var tail := Named(name[1..]);
      assert Readable(tail);
      UpToCloseFinds(name[1..], rest);
      assert (name + [')'] + rest)[1..] == name[1..] + [')'] + rest;
    }
  }

  lemma DecodeOne(t: Token, rest: string)
    requires Readable(t)
    ensures Decode(Written(t) + rest) == Cons(t, Decode(rest))
  {
    var s := Written(t) + rest;
    match t
    case Lit(c) => assert s[if c == '%' then 2 else 1..] == rest;
    case Pos => assert s[2..] == rest;
    case Named(name) =>
      UpToCloseFinds(name, "s" + rest);
      assert s[2..] == name + [')'] + ("s" + rest);
      assert s[|name| + 2..|name| + 4] == ")s";
      assert s[|name| + 4..] == rest;
  }

  lemma {:induction false} DecodeInvertsRender(ts: seq<Token>)
    requires forall i :: 0 <= i < |ts| ==> Readable(ts[i])
    ensures Decode(Render(ts)) == Some(ts)
  {
    if ts != [] {
      DecodeInvertsRender(ts[1..]);
      DecodeOne(ts[0], Render(ts[1..]));
      assert [ts[0]] + ts[1..] == ts;
    }
  }

  lemma {:induction false} LexReadable(k: Letters, s: string, i: nat, quoted: bool)
    requires Sane(k) && i <= |s|
    ensures forall x :: 0 <= x < |Lex(k, s, i, quoted)| ==> Readable(Lex(k, s, i, quoted)[x])
    decreases |s| - i
  {
    if i < |s| {
      var f := First(k, s, i, quoted);
      LexReadable(k, s, f.end, f.quoted);
      if f.tokens[0].Named? {
        assert forall x :: i + 1 <= x < f.end ==> s[x] != ')';
      }
    }
  }

  /** The driver reads a translated statement as exactly what the source statement says. */
  lemma TranslationSaysTheSame(k: Letters, sql: string)
    requires Sane(k)
    ensures Decode(Render(Lex(k, sql, 0, false))) == Some(Lex(k, sql, 0, false))
  {
    LexReadable(k, sql, 0, false);
    DecodeInvertsRender(Lex(k, sql, 0, false));
  }

  // That the reading is the right one

  function Spelled(t: Token): string {
    match t
    case Lit(c) => [c]
    case Pos => "?"
    case Named(name) => [':'] + name
  }

  /** Nothing of the statement is lost, added or moved by reading it. */
  lemma {:induction false} ReadingKeepsTheText(k: Letters, s: string, i: nat, quoted: bool)
    requires i <= |s|
    ensures FlatMap(Lex(k, s, i, quoted), Spelled) == s[i..]
    decreases |s| - i
  {
    if i < |s| {
      var f := First(k, s, i, quoted);
      ReadingKeepsTheText(k, s, f.end, f.quoted);
      FlatMapAppend(f.tokens, Lex(k, s, f.end, f.quoted), Spelled);
      FlatMapFew(f.tokens, Spelled);
      assert s[i..f.end] + s[f.end..] == s[i..];
      SpelledFirst(k, s, i, quoted);
    }
  }

  lemma SpelledFirst(k: Letters, s: string, i: nat, quoted: bool)
    requires i < |s|
    ensures var f := First(k, s, i, quoted); FlatMap(f.tokens, Spelled) == s[i..f.end]
  {
    var f := First(k, s, i, quoted);
    FlatMapFew(f.tokens, Spelled);
    assert f.tokens[0].Named? ==> s[i..f.end] == [':'] + s[i + 1..f.end];
  }

  /** Whether place `j` is inside a quoted string, counting quotes from `i`. */
  function Quoted(s: string, i: nat, j: nat, quoted: bool): bool
    requires i <= j <= |s|
    decreases j - i
  {
    if i == j then quoted else Quoted(s, i + 1, j, if s[i] == '\'' then !quoted else quoted)
  }

  /** The '?' that stand outside quoted strings. */
  function Marks(s: string, i: nat, quoted: bool): nat
    requires i <= |s|
    decreases |s| - i
  {
    if i == |s| then 0
    else (if s[i] == '?' && !quoted then 1 else 0) + Marks(s, i + 1, if s[i] == '\'' then !quoted else quoted)
  }

  function Positions(ts: seq<Token>): nat {
    if ts == [] then 0 else (if ts[0].Pos? then 1 else 0) + Positions(ts[1..])
  }

  lemma {:induction false} NothingInName(k: Letters, s: string, i: nat, j: nat)
    requires Sane(k) && i <= j <= |s| && forall x :: i <= x < j ==> InName(k, s[x])
    ensures Quoted(s, i, |s|, false) == Quoted(s, j, |s|, false)
    ensures Marks(s, i, false) == Marks(s, j, false)
    decreases j - i
  {
    if i < j {
      assert InName(k, s[i]);
      NothingInName(k, s, i + 1, j);
    }
  }

  lemma FirstTracksQuotes(k: Letters, s: string, i: nat, quoted: bool)
    requires Sane(k) && i < |s|
    ensures var f := First(k, s, i, quoted);
            && Quoted(s, i, |s|, quoted) == Quoted(s, f.end, |s|, f.quoted)
            && Marks(s, i, quoted) == Positions(f.tokens) + Marks(s, f.end, f.quoted)
  {
    var f := First(k, s, i, quoted);
    assert f.tokens[1..] == if |f.tokens| == 2 then [Lit(':')] else [];
    if f.tokens[0].Named? {
      NothingInName(k, s, i + 1, f.end);
    }
  }

  lemma {:induction false} PositionsAppend(a: seq<Token>, b: seq<Token>)
    ensures Positions(a + b) == Positions(a) + Positions(b)
  {
    if a == [] {
      assert a + b == b;
    } else {
      PositionsAppend(a[1..], b);
      assert (a + b)[1..] == a[1..] + b;
    }
  }

  /** One positional marker for each '?' outside quotes. */
  lemma {:induction false} OneMarkerPerMark(k: Letters, s: string, i: nat, quoted: bool)
    requires Sane(k) && i <= |s|
    ensures Positions(Lex(k, s, i, quoted)) == Marks(s, i, quoted)
    decreases |s| - i
  {
    if i < |s| {
      var f := First(k, s, i, quoted);
      OneMarkerPerMark(k, s, f.end, f.quoted);
      FirstTracksQuotes(k, s, i, quoted);
      PositionsAppend(f.tokens, Lex(k, s, f.end, f.quoted));
    }
  }

  // Named markers

  /** How many colons stand in a row right before place `i`. */
  function ColonsBefore(s: string, i: nat): nat
    requires i <= |s|
  {
    if i == 0 || s[i - 1] != ':' then 0 else 1 + ColonsBefore(s, i - 1)
  }

  /** Place `i` holds a colon outside quotes that belongs to no pair (pairs are taken from the
      left of a row of colons) and is followed by a letter or an underscore. */
  predicate OpensName(k: Letters, s: string, i: nat)
    requires i < |s|
  {
    && s[i] == ':' && !Quoted(s, 0, i, false) && ColonsBefore(s, i) % 2 == 0
    && i + 1 < |s| && StartsName(k, s[i + 1])
  }

  /** The maximal names after those colons, from place `i` on, in order. */
  function NamesIn(k: Letters, s: string, i: nat): seq<string>
    requires i <= |s|
    decreases |s| - i
  {
    if i == |s| then []
    else (if OpensName(k, s, i) then [s[i + 1..NameEnd(k, s, i + 1)]] else []) + NamesIn(k, s, i + 1)
  }

  function NameOf(t: Token): seq<string> {
    if t.Named? then [t.name] else []
  }

  function NamesOf(ts: seq<Token>): seq<string> {
    FlatMap(ts, NameOf)
  }

  lemma {:induction false} QuotedStep(s: string, i: nat, j: nat, quoted: bool)
    requires i <= j < |s|
    ensures Quoted(s, i, j + 1, quoted) == if s[j] == '\'' then !Quoted(s, i, j, quoted) else Quoted(s, i, j, quoted)
    decreases j - i
  {
    if i < j {
      QuotedStep(s, i + 1, j, if s[i] == '\'' then !quoted else quoted);
    }
  }

  lemma {:induction false} SkipUnopened(k: Letters, s: string, i: nat, j: nat)
    requires i <= j <= |s| && forall x :: i <= x < j ==> !OpensName(k, s, x)
    ensures NamesIn(k, s, i) == NamesIn(k, s, j)
    decreases j - i
  {
    if i < j {
      SkipUnopened(k, s, i + 1, j);
    }
  }

  /** Where the scan stands: it knows whether it is in quotes, and never stands on the second
      colon of a pair. */
  predicate Stands(s: string, i: nat, quoted: bool)
    requires i <= |s|
  {
    quoted == Quoted(s, 0, i, false) && (i < |s| && s[i] == ':' && !quoted ==> ColonsBefore(s, i) % 2 == 0)
  }

  /** One step of the scan that reads no name passes no colon that opens one. */
  lemma StepWithoutName(k: Letters, s: string, i: nat, quoted: bool)
    requires Sane(k) && i < |s| && Stands(s, i, quoted) && !First(k, s, i, quoted).tokens[0].Named?
    ensures var f := First(k, s, i, quoted);
            Stands(s, f.end, f.quoted) && NamesIn(k, s, i) == NamesIn(k, s, f.end) && NamesOf(f.tokens) == []
  {
    var f := First(k, s, i, quoted);
    QuotedStep(s, 0, i, false);
    if f.end == i + 2 {
      QuotedStep(s, 0, i + 1, false);
      StartsContinue(k, ':');
    }
    SkipUnopened(k, s, i, f.end);
    FlatMapFew(f.tokens, NameOf);
  }

  lemma {:induction false} NameStaysUnquoted(k: Letters, s: string, i: nat, j: nat)
    requires Sane(k) && i <= j <= |s| && forall x :: i <= x < j ==> InName(k, s[x])
    ensures Quoted(s, 0, j, false) == Quoted(s, 0, i, false)
    decreases j
  {
    if i < j {
      assert InName(k, s[j - 1]);
      NameStaysUnquoted(k, s, i, j - 1);
      QuotedStep(s, 0, j - 1, false);
    }
  }

  lemma StepOverName(k: Letters, s: string, i: nat, quoted: bool)
    requires Sane(k) && i < |s| && Stands(s, i, quoted) && First(k, s, i, quoted).tokens[0].Named?
    ensures var f := First(k, s, i, quoted);
            Stands(s, f.end, f.quoted) && NamesIn(k, s, i) == NamesOf(f.tokens) + NamesIn(k, s, f.end)
  {
    var f := First(k, s, i, quoted);
    assert InName(k, s[i + 1]);
    assert f.end > i + 1;
    QuotedStep(s, 0, i, false);
    NameStaysUnquoted(k, s, i + 1, f.end);
    forall x | i + 1 <= x < f.end
      ensures !OpensName(k, s, x)
    {
      assert InName(k, s[x]);
    }
    SkipUnopened(k, s, i + 1, f.end);
    assert InName(k, s[f.end - 1]);
    FlatMapFew(f.tokens, NameOf);
  }

  lemma {:induction false} NamesAreThose(k: Letters, s: string, i: nat, quoted: bool)
    requires Sane(k) && i <= |s| && Stands(s, i, quoted)
    ensures NamesOf(Lex(k, s, i, quoted)) == NamesIn(k, s, i)
    decreases |s| - i
  {
    if i < |s| {
      var f := First(k, s, i, quoted);
      if f.tokens[0].Named? { StepOverName(k, s, i, quoted); } else { StepWithoutName(k, s, i, quoted); }
      NamesAreThose(k, s, f.end, f.quoted);
      FlatMapAppend(f.tokens, Lex(k, s, f.end, f.quoted), NameOf);
    }
  }

  /** The named markers are, in order, exactly the maximal names after each colon outside quotes
      that belongs to no pair and is followed by a letter or an underscore. */
  lemma OneNamedMarkerPerName(k: Letters, sql: string)
    requires Sane(k)
    ensures NamesOf(Lex(k, sql, 0, false)) == NamesIn(k, sql, 0)
  {
    NamesAreThose(k, sql, 0, false);
  }

  /** The text from `n` on neither continues a name nor completes a pair of colons. */
  predicate Clean(k: Letters, s: string, n: nat)
    requires n <= |s|
  {
    0 < n < |s| ==> !InName(k, s[n]) && !(s[n] == ':' && s[n - 1] == ':')
  }

  lemma StartsContinue(k: Letters, c: char)
    requires Sane(k) && !InName(k, c)
    ensures !StartsName(k, c)
  {
  }

  lemma FirstCut(k: Letters, s: string, n: nat, i: nat, quoted: bool)
    requires Sane(k) && i < n <= |s| && Clean(k, s, n)
    ensures First(k, s, i, quoted) == First(k, s[..n], i, quoted)
  {
    if n < |s| {
      StartsContinue(k, s[n]);
    }
    if i + 1 < n {
      var j := NameEnd(k, s[..n], i + 1);
      assert s[i + 1..j] == s[..n][i + 1..j];
    }
  }

  /** A statement reads as its first part, then the rest from there. */
  lemma {:induction false} LexCut(k: Letters, s: string, n: nat, i: nat, quoted: bool)
    requires Sane(k) && i <= n <= |s| && Clean(k, s, n)
    ensures Lex(k, s, i, quoted) == Lex(k, s[..n], i, quoted) + Lex(k, s, n, Quoted(s[..n], i, n, quoted))
    decreases n - i
  {
    if i < n {
      var f := First(k, s, i, quoted);
      FirstCut(k, s, n, i, quoted);
      FirstTracksQuotes(k, s[..n], i, quoted);
      LexCut(k, s, n, f.end, f.quoted);
      Assoc(f.tokens, Lex(k, s[..n], f.end, f.quoted), Lex(k, s, n, Quoted(s[..n], i, n, quoted)));
    }
  }

  lemma FirstShift(k: Letters, s: string, n: nat, i: nat, quoted: bool)
    requires n <= |s| && i < |s| - n
    ensures var f, g := First(k, s, n + i, quoted), First(k, s[n..], i, quoted);
            f.tokens == g.tokens && f.end == n + g.end && f.quoted == g.quoted
  {
    if i + 1 < |s| - n {
      var j := NameEnd(k, s[n..], i + 1);
      assert s[n..][i + 1..j] == s[n + i + 1..n + j];
    }
  }

  /** What is read from a place on depends only on the text from there on. */
  lemma {:induction false} LexShift(k: Letters, s: string, n: nat, i: nat, quoted: bool)
    requires n <= |s| && i <= |s| - n
    ensures Lex(k, s, n + i, quoted) == Lex(k, s[n..], i, quoted)
    decreases |s| - i
  {
    if i < |s| - n {
      FirstShift(k, s, n, i, quoted);
      var g := First(k, s[n..], i, quoted);
      LexShift(k, s, n, g.end, g.quoted);
    }
  }

  function Literal(s: string): (r: seq<Token>)
    ensures |r| == |s| && forall i :: 0 <= i < |s| ==> r[i] == Lit(s[i])
  {
    MapSeq(s, (c: char) => Lit(c))
  }

  lemma {:induction false} QuotedTextIsLiteral(k: Letters, s: string, i: nat, j: nat)
    requires i <= j < |s| && s[j] == '\'' && forall x :: i <= x < j ==> s[x] != '\''
    ensures Lex(k, s, i, true) == Literal(s[i..j + 1]) + Lex(k, s, j + 1, false)
    decreases j - i
  {
    if i < j {
      QuotedTextIsLiteral(k, s, i + 1, j);
      assert Literal(s[i..j + 1]) == [Lit(s[i])] + Literal(s[i + 1..j + 1]);
    } else {
      assert Literal(s[i..j + 1]) == [Lit('\'')];
    }
  }

  /** Whatever stands between an opening quote and the next one is literal text, and the
      statement reads on outside quotes after it. */
  lemma QuotedStringsAreLiteral(k: Letters, s: string, i: nat, j: nat)
    requires Sane(k) && i < j < |s| && s[i] == '\'' && s[j] == '\'' && forall x :: i < x < j ==> s[x] != '\''
    requires !Quoted(s[..i], 0, i, false)
    ensures Lex(k, s, 0, false) == Lex(k, s[..i], 0, false) + Literal(s[i..j + 1]) + Lex(k, s, j + 1, false)
  {
    LexCut(k, s, i, 0, false);
    var before, after := Lex(k, s[..i], 0, false), Lex(k, s, j + 1, false);
    QuotedStringFromHere(k, s, i, j);
    assert Lex(k, s, 0, false) == before + (Literal(s[i..j + 1]) + after);
    Assoc(before, Literal(s[i..j + 1]), after);
  }

  lemma QuotedStringFromHere(k: Letters, s: string, i: nat, j: nat)
    requires i < j < |s| && s[i] == '\'' && s[j] == '\'' && forall x :: i < x < j ==> s[x] != '\''
    ensures Lex(k, s, i, false) == Literal(s[i..j + 1]) + Lex(k, s, j + 1, false)
  {
    QuotedTextIsLiteral(k, s, i + 1, j);
    assert Literal(s[i..j + 1]) == [Lit('\'')] + Literal(s[i + 1..j + 1]);
    Assoc([Lit('\'')], Literal(s[i + 1..j + 1]), Lex(k, s, j + 1, false));
  }

  /** A cast outside quotes is literal text. */
  lemma CastsAreLiteral(k: Letters, s: string, i: nat)
    requires Sane(k) && i + 1 < |s| && s[i] == ':' && s[i + 1] == ':' && (i > 0 ==> s[i - 1] != ':')
    requires !Quoted(s[..i], 0, i, false)
    ensures Lex(k, s, 0, false) == Lex(k, s[..i], 0, false) + [Lit(':'), Lit(':')] + Lex(k, s, i + 2, false)
  {
    LexCut(k, s, i, 0, false);
    Assoc(Lex(k, s[..i], 0, false), [Lit(':'), Lit(':')], Lex(k, s, i + 2, false));
  }
}
