/** The lexer of src/lexer.rs: a line classifier and an indentation-stack
    state machine that turns changes of leading-whitespace width into
    `Indent`/`Dedent` tokens. */
module Lexer {
  import opened Strings

  /** A lexical token. */
  datatype Token =
    | Title
    | Date
    | Description
    | Content
    | Text(value: string)
    | Indent
    | Dedent
    | Paragraph
    | Link(url: string)
    | Image(url: string)

  /** The synthetic tokens that only carry nesting. */
  predicate IsStructural(t: Token)
  {
    t.Indent? || t.Dedent?
  }

  // ---------------------------------------------------------------------
  // Line classification
  // ---------------------------------------------------------------------

  /** `tokenize_line`: an exact keyword gives its tag, a `link:`/`image:`
      prefix gives the trimmed remainder as payload, anything else is text.
      It is total, never produces a structural token, and every payload it
      produces is trimmed. */
  function TokenizeLine(line: string): (t: Token)
    ensures !IsStructural(t)
    ensures t.Text? ==> IsTrimmed(t.value)
    ensures t.Link? || t.Image? ==> IsTrimmed(t.url)
  {
    if line == "title:" then Title
    else if line == "date:" then Date
    else if line == "description:" then Description
    else if line == "content:" then Content
    else if line == "p:" then Paragraph
    else if "link:" <= line then Link(Trim(line[5..]))
    else if "image:" <= line then Image(Trim(line[6..]))
    else Text(Trim(line))
  }

  /** Lines that the classifier does not read as text. */
  predicate IsTagLine(s: string)
  {
    s == "title:" || s == "date:" || s == "description:" || s == "content:" || s == "p:"
    || "link:" <= s || "image:" <= s
  }

  /** Tokens that a trimmed line produces, with their payload as the
      classifier leaves it. A column-0 line is classified untrimmed and can
      also give other text, such as `Text("title:")` for `"title: "`
      (`TrailingSpaceDefeatsKeyword`). */
  predicate IsLineToken(t: Token)
  {
    && !IsStructural(t)
    && (t.Text? ==> IsTrimmed(t.value) && !IsTagLine(t.value))
    && (t.Link? || t.Image? ==> IsTrimmed(t.url))
  }

  /** The canonical source line of a non-structural token. */
  function LineOf(t: Token): string
    requires !IsStructural(t)
  {
    match t
    case Title => "title:"
    case Date => "date:"
    case Description => "description:"
    case Content => "content:"
    case Paragraph => "p:"
    case Link(u) => "link:" + u
    case Image(u) => "image:" + u
    case Text(v) => v
  }

  /** The classifier inverts `LineOf`: every token a trimmed line can
      produce is read back from its canonical line. */
  lemma TokenizeLineOf(t: Token)
    requires IsLineToken(t)
    ensures TokenizeLine(LineOf(t)) == t
  {
    if t.Link? {
      LinkLineOf(t.url);
    } else if t.Image? {
      ImageLineOf(t.url);
    } else if t.Text? {
      TrimTrimmed(t.value);
    }
  }

  lemma LinkLineOf(u: string)
    requires IsTrimmed(u)
    ensures TokenizeLine("link:" + u) == Link(u)
  {
    var s := "link:" + u;
    assert s[0] == 'l';
    assert s[..5] == "link:" && s[5..] == u;
    TrimTrimmed(u);
  }

  lemma ImageLineOf(u: string)
    requires IsTrimmed(u)
    ensures TokenizeLine("image:" + u) == Image(u)
  {
    var s := "image:" + u;
    assert s[0] == 'i';
    assert s[..6] == "image:" && s[6..] == u;
    TrimTrimmed(u);
  }

  /** Every trimmed line is classified into a token of that form, so
      classifying, printing and classifying again is stable. Lines at
      column 0 are classified untrimmed and are not covered: see
      `TrailingSpaceDefeatsKeyword`. */
  lemma TokenizeTrimmedLine(s: string)
    requires IsTrimmed(s)
    ensures IsLineToken(TokenizeLine(s))
    ensures TokenizeLine(LineOf(TokenizeLine(s))) == TokenizeLine(s)
  {
    if !IsTagLine(s) {
      TrimTrimmed(s);
    }
    TokenizeLineOf(TokenizeLine(s));
  }

  /** A column-0 line is classified before trimming, so a keyword followed
      by a space is text. */
  lemma TrailingSpaceDefeatsKeyword()
    ensures TokenizeLine("title: ") == Text("title:")
  {
    var s := "title: ";
    assert !("link:" <= s) by { assert s[0] != 'l'; }
    assert !("image:" <= s) by { assert s[0] != 'i'; }
    assert Width(s) == 0;
    assert TrailingWidth(s[..6]) == 0;
    assert TrailingWidth(s) == 1;
    assert s[0..6] == "title:";
  }

  // ---------------------------------------------------------------------
  // The indentation stack
  // ---------------------------------------------------------------------

  /** The width on top of the stack, 0 when it is empty. */
  function Top(indents: seq<nat>): nat
  {
    if indents == [] then 0 else indents[|indents| - 1]
  }

  function Dedents(n: nat): seq<Token>
  {
    seq(n, _ => Dedent)
  }

  /** Stored widths are positive and strictly increasing from bottom to top. */
  predicate ValidIndents(indents: seq<nat>)
  {
    && (forall i :: 0 <= i < |indents| ==> indents[i] > 0)
    && (forall i, j :: 0 <= i < j < |indents| ==> indents[i] < indents[j])
  }

  /** The reverse scan that counts how many stored widths, from the top
      down, are strictly greater than `width`, stopping at the first that
      is not. */
  function DedentCount(indents: seq<nat>, width: nat): (k: nat)
    ensures k <= |indents|
    ensures forall i :: |indents| - k <= i < |indents| ==> indents[i] > width
    ensures k == |indents| || indents[|indents| - k - 1] <= width
  {
    if indents == [] || width >= indents[|indents| - 1] then 0
    else 1 + DedentCount(indents[..|indents| - 1], width)
  }

  /** What one line adds to the token list, and the stack after it. */
  datatype Step = Step(emitted: seq<Token>, indents: seq<nat>)

  /** One iteration of the loop of `lex`. A blank line changes nothing; any
      other line adds exactly one non-structural token, its classification,
      after the structural tokens its indentation triggers. */
  function LineStep(indents: seq<nat>, line: string): (r: Step)
    ensures Blank(line) ==> r == Step([], indents)
    ensures !Blank(line) ==>
      && |r.emitted| > 0
      && r.emitted[|r.emitted| - 1] == TokenizeLine(if Width(line) == 0 then line else Trim(line))
      && forall i :: 0 <= i < |r.emitted| - 1 ==> IsStructural(r.emitted[i])
  {
    if Blank(line) then Step([], indents)
    else
      var width := Width(line);
      if width == 0 then
        Step(Dedents(|indents|) + [TokenizeLine(line)], [])
      else if width > Top(indents) then
        Step([Indent, TokenizeLine(Trim(line))], indents + [width])
      else if width < Top(indents) then
        var k := DedentCount(indents, width);
        Step(Dedents(k) + [TokenizeLine(Trim(line))], indents[..|indents| - k])
      else
        Step([TokenizeLine(Trim(line))], indents)
  }

  /** The tokens produced so far and the stack of stored widths. */
  datatype LexState = LexState(tokens: seq<Token>, indents: seq<nat>)

  /** The state after the loop of `lex` has read `lines`. */
  function LexAll(lines: seq<string>): LexState
  {
    if lines == [] then LexState([], [])
    else
      var s := LexAll(lines[..|lines| - 1]);
      var step := LineStep(s.indents, lines[|lines| - 1]);
      LexState(s.tokens + step.emitted, step.indents)
  }

  // ---------------------------------------------------------------------
  // Nesting depth
  // ---------------------------------------------------------------------

  function Delta(t: Token): int
  {
    if t.Indent? then 1 else if t.Dedent? then -1 else 0
  }

  /** Number of `Indent`s minus number of `Dedent`s. */
  function Depth(ts: seq<Token>): int
  {
    if ts == [] then 0 else Depth(ts[..|ts| - 1]) + Delta(ts[|ts| - 1])
  }

  /** The running depth of every prefix is non-negative. */
  predicate NeverNegative(ts: seq<Token>)
  {
    forall k :: 0 <= k <= |ts| ==> Depth(ts[..k]) >= 0
  }

  lemma {:induction false} DepthAppend(a: seq<Token>, b: seq<Token>)
    ensures Depth(a + b) == Depth(a) + Depth(b)
    decreases |b|
  {
    if b == [] {
      assert a + b == a;
    } else {
      var b' := b[..|b| - 1];
      assert (a + b)[..|a + b| - 1] == a + b';
      DepthAppend(a, b');
    }
  }

  lemma {:induction false} DepthDedents(n: nat)
    ensures Depth(Dedents(n)) == -(n as int)
  {
    if n > 0 {
      assert Dedents(n)[..n - 1] == Dedents(n - 1);
      DepthDedents(n - 1);
    }
  }

  /** A run of `n` `Dedent`s followed by one line token never takes the
      depth below `-n`, and ends at exactly `-n`. */
  lemma DedentRunDepth(n: nat, t: Token)
    requires !IsStructural(t)
    ensures Depth(Dedents(n) + [t]) == -(n as int)
    ensures forall m :: 0 <= m <= n + 1 ==> Depth((Dedents(n) + [t])[..m]) >= -(n as int)
  {
    var e := Dedents(n) + [t];
    DepthDedents(n);
    assert e[..n] == Dedents(n);
    forall m | 0 <= m <= n + 1 ensures Depth(e[..m]) >= -(n as int) {
      if m <= n {
        assert e[..m] == Dedents(m);
        DepthDedents(m);
      } else {
        assert e[..m] == e;
      }
    }
  }

  /** The other three widths a non-blank line can have. A column-0 line
      closes every stored width, one `Dedent` each, and empties the stack;
      a line wider than the top (0 when the stack is empty) opens exactly
      one `Indent` and pushes its width; a line as wide as the top emits no
      structural token and leaves the stack alone. */
  lemma LineStepShape(indents: seq<nat>, line: string)
    requires !Blank(line)
    ensures var r := LineStep(indents, line);
      && (Width(line) == 0 ==>
            r.indents == [] && r.emitted == Dedents(|indents|) + [TokenizeLine(line)])
      && (Width(line) > Top(indents) ==>
            r.indents == indents + [Width(line)] && r.emitted == [Indent, TokenizeLine(Trim(line))])
      && (0 < Width(line) == Top(indents) ==>
            r.indents == indents && r.emitted == [TokenizeLine(Trim(line))])
  {
  }

  /** `LineStepShape`, one width at a time. */
  lemma ColumnZeroStep(indents: seq<nat>, line: string)
    requires !Blank(line) && Width(line) == 0
    ensures LineStep(indents, line) == Step(Dedents(|indents|) + [TokenizeLine(line)], [])
  {
  }

  lemma WiderStep(indents: seq<nat>, line: string)
    requires !Blank(line) && Width(line) > Top(indents)
    ensures LineStep(indents, line) == Step([Indent, TokenizeLine(Trim(line))], indents + [Width(line)])
  {
  }

  lemma SameStep(indents: seq<nat>, line: string)
    requires !Blank(line) && 0 < Width(line) == Top(indents)
    ensures LineStep(indents, line) == Step([TokenizeLine(Trim(line))], indents)
  {
  }

  /** A line narrower than the top of the stack, but not at column 0,
      closes exactly the stored widths greater than its own: it emits one
      `Dedent` for each and keeps the rest of the stack, all no wider than
      the line. No `Indent` is emitted, even when the line is wider than
      the new top. */
  lemma LineStepDedent(indents: seq<nat>, line: string)
    requires ValidIndents(indents)
    requires !Blank(line) && 0 < Width(line) < Top(indents)
    ensures var r := LineStep(indents, line);
      && r.indents <= indents
      && r.emitted == Dedents(|indents| - |r.indents|) + [TokenizeLine(Trim(line))]
      && (forall i :: 0 <= i < |r.indents| ==> r.indents[i] <= Width(line))
      && (forall i :: |r.indents| <= i < |indents| ==> indents[i] > Width(line))
      && Indent !in r.emitted
  {
    var w := Width(line);
    NarrowerStep(indents, line);
    KeptNoWider(indents, w);
    NoIndentInRun(DedentCount(indents, w), TokenizeLine(Trim(line)));
  }

  /** The widths the reverse scan keeps are all no wider than `width`. */
  lemma KeptNoWider(indents: seq<nat>, width: nat)
    requires ValidIndents(indents)
    ensures var kept := indents[..|indents| - DedentCount(indents, width)];
      forall i :: 0 <= i < |kept| ==> kept[i] <= width
  {
    var k := DedentCount(indents, width);
    var kept := indents[..|indents| - k];
    forall i | 0 <= i < |kept| ensures kept[i] <= width {
      if i < |kept| - 1 {
        assert indents[i] < indents[|kept| - 1];
      }
    }
  }

  lemma NoIndentInRun(n: nat, t: Token)
    requires !IsStructural(t)
    ensures Indent !in Dedents(n) + [t]
  {
    var e := Dedents(n) + [t];
    forall i | 0 <= i < |e| ensures e[i] != Indent {
      if i < n {
        assert e[i] == Dedent;
      } else {
        assert e[i] == t;
      }
    }
  }

  /** The narrower-line branch of `LineStep`, unfolded. */
  lemma NarrowerStep(indents: seq<nat>, line: string)
    requires !Blank(line) && 0 < Width(line) < Top(indents)
    ensures var k := DedentCount(indents, Width(line));
      LineStep(indents, line) == Step(Dedents(k) + [TokenizeLine(Trim(line))], indents[..|indents| - k])
  {
  }

  /** Dropping widths from the top keeps the stack valid. */
  lemma PrefixPreservesValid(indents: seq<nat>, n: nat)
    requires ValidIndents(indents) && n <= |indents|
    ensures ValidIndents(indents[..n])
  {
  }

  /** Pushing a width wider than the top keeps the stack valid. */
  lemma PushPreservesValid(indents: seq<nat>, width: nat)
    requires ValidIndents(indents) && width > Top(indents)
    ensures ValidIndents(indents + [width])
  {
    forall i | 0 <= i < |indents| ensures indents[i] < width {
      if i < |indents| - 1 {
        assert indents[i] < indents[|indents| - 1];
      }
    }
  }

  /** An `Indent` followed by one line token. */
  lemma IndentStepDepth(t: Token)
    requires !IsStructural(t)
    ensures Depth([Indent, t]) == 1
    ensures forall m :: 0 <= m <= 2 ==> Depth([Indent, t][..m]) >= 0
  {
    assert [Indent, t][..1] == [Indent];
    assert [Indent][..0] == [];
    assert Depth([Indent]) == 1;
    assert [Indent, t][..0] == [];
    assert [Indent, t][..2] == [Indent, t];
  }

  /** A single line token. */
  lemma SameStepDepth(t: Token)
    requires !IsStructural(t)
    ensures Depth([t]) == 0
    ensures forall m :: 0 <= m <= 1 ==> Depth([t][..m]) == 0
  {
    assert [t][..0] == [];
    assert [t][..1] == [t];
    assert Depth([t]) == Depth([]) + Delta(t);
  }

  /** Every line keeps the stack valid, changes the depth by the change in
      stack height, and never takes the running depth below minus the
      height of the stack it started from. */
  lemma LineStepPreservesInvariant(indents: seq<nat>, line: string)
    requires ValidIndents(indents)
    ensures StepKeeps(indents, LineStep(indents, line))
  {
    if Blank(line) {
      var e: seq<Token> := [];
      assert e[..0] == [];
    } else if Width(line) == 0 {
      ColumnZeroKeeps(indents, line);
    } else if Width(line) > Top(indents) {
      WiderKeeps(indents, line);
    } else if Width(line) < Top(indents) {
      NarrowerStep(indents, line);
      NarrowerKeeps(indents, Width(line), TokenizeLine(Trim(line)));
    } else {
      SameKeeps(indents, line);
    }
  }

  lemma ColumnZeroKeeps(indents: seq<nat>, line: string)
    requires !Blank(line) && Width(line) == 0
    ensures StepKeeps(indents, LineStep(indents, line))
  {
    LineStepShape(indents, line);
    DedentRunDepth(|indents|, TokenizeLine(line));
  }

  lemma WiderKeeps(indents: seq<nat>, line: string)
    requires ValidIndents(indents) && !Blank(line) && Width(line) > Top(indents)
    ensures StepKeeps(indents, LineStep(indents, line))
  {
    LineStepShape(indents, line);
    IndentStepDepth(TokenizeLine(Trim(line)));
    PushPreservesValid(indents, Width(line));
  }

  lemma SameKeeps(indents: seq<nat>, line: string)
    requires ValidIndents(indents) && !Blank(line) && 0 < Width(line) == Top(indents)
    ensures StepKeeps(indents, LineStep(indents, line))
  {
    LineStepShape(indents, line);
    SameStepDepth(TokenizeLine(Trim(line)));
  }

  /** The stack stays valid, the depth changes by the change in stack
      height, and the running depth never drops below minus the height of
      the stack the step started from. */
  predicate StepKeeps(indents: seq<nat>, r: Step)
  {
    && ValidIndents(r.indents)
    && Depth(r.emitted) == |r.indents| - |indents|
    && forall m :: 0 <= m <= |r.emitted| ==> Depth(r.emitted[..m]) >= -|indents|
  }

  lemma NarrowerKeeps(indents: seq<nat>, width: nat, t: Token)
    requires ValidIndents(indents) && !IsStructural(t)
    ensures var k := DedentCount(indents, width);
      StepKeeps(indents, Step(Dedents(k) + [t], indents[..|indents| - k]))
  {
    var k := DedentCount(indents, width);
    DedentRunDepth(k, t);
    PrefixPreservesValid(indents, |indents| - k);
  }

  /** Appending a segment whose running depth never drops below minus the
      depth reached so far keeps every prefix non-negative. */
  lemma NeverNegativeAppend(a: seq<Token>, e: seq<Token>)
    requires NeverNegative(a)
    requires forall m :: 0 <= m <= |e| ==> Depth(e[..m]) >= -Depth(a)
    ensures NeverNegative(a + e)
  {
    forall k | 0 <= k <= |a + e| ensures Depth((a + e)[..k]) >= 0 {
      if k <= |a| {
        assert (a + e)[..k] == a[..k];
      } else {
        assert (a + e)[..k] == a + e[..k - |a|];
        DepthAppend(a, e[..k - |a|]);
      }
    }
  }

  /** After any number of lines the stack is valid, the running depth of
      the output never goes negative and the output's depth equals the
      stack height. No closing `Dedent`s are added at the end, so the output
      is balanced exactly when the stack is empty. */
  lemma {:induction false} LexAllInvariant(lines: seq<string>)
    ensures var s := LexAll(lines);
      && ValidIndents(s.indents)
      && Depth(s.tokens) == |s.indents|
      && NeverNegative(s.tokens)
  {
    if lines != [] {
      var init := lines[..|lines| - 1];
      var prev := LexAll(init);
      var line := lines[|lines| - 1];
      LexAllInvariant(init);
      var step := LineStep(prev.indents, line);
      LineStepPreservesInvariant(prev.indents, line);
      DepthAppend(prev.tokens, step.emitted);
      NeverNegativeAppend(prev.tokens, step.emitted);
    }
  }

  /** Input made only of blank lines yields no tokens. */
  lemma {:induction false} LexBlankLines(lines: seq<string>)
    requires forall i :: 0 <= i < |lines| ==> AllSpace(lines[i])
    ensures LexAll(lines) == LexState([], [])
  {
    if lines != [] {
      LexBlankLines(lines[..|lines| - 1]);
      BlankIffAllSpace(lines[|lines| - 1]);
    }
  }

  /** The scan of `lex` that walks the stack from the top down and counts
      the stored widths greater than `width`, stopping at the first that is
      not. */
  method CountDedents(indents: seq<nat>, width: nat) returns (dedentCount: nat)
    ensures dedentCount == DedentCount(indents, width)
    ensures dedentCount <= |indents|
  {
    dedentCount := 0;
    assert indents[..|indents|] == indents;
    for j := 0 to |indents|
      invariant dedentCount == j
      invariant DedentCount(indents, width)
                == dedentCount + DedentCount(indents[..|indents| - dedentCount], width)
    {
      if width >= indents[|indents| - 1 - j] {
        break;
      }
      DedentCountStep(indents, width, dedentCount);
      dedentCount := dedentCount + 1;
    }
  }

  /** One more stored width above `width` adds one to the count. */
  lemma DedentCountStep(indents: seq<nat>, width: nat, k: nat)
    requires k < |indents| && width < indents[|indents| - 1 - k]
    requires DedentCount(indents, width) == k + DedentCount(indents[..|indents| - k], width)
    ensures DedentCount(indents, width) == k + 1 + DedentCount(indents[..|indents| - (k + 1)], width)
  {
    var rest := indents[..|indents| - k];
    var shorter := indents[..|indents| - (k + 1)];
    assert rest != [] && rest[|rest| - 1] == indents[|indents| - 1 - k];
    assert rest[..|rest| - 1] == shorter;
    assert DedentCount(rest, width) == 1 + DedentCount(shorter, width);
  }

  /** Reading one more line applies one `LineStep`. */
  lemma LexAllSnoc(lines: seq<string>, n: nat)
    requires n < |lines|
    ensures var s := LexAll(lines[..n]);
      var step := LineStep(s.indents, lines[n]);
      LexAll(lines[..n + 1]) == LexState(s.tokens + step.emitted, step.indents)
  {
    assert lines[..n + 1][..n] == lines[..n];
  }

  /** A title section lexes to its tag, an `Indent` and its text, and the
      stream ends one level deep: no closing `Dedent` is emitted. */
  lemma LexTitleSection()
    ensures LexAll(["title:", "    Hello"]).tokens == [Title, Indent, Text("Hello")]
    ensures Depth(LexAll(["title:", "    Hello"]).tokens) == 1
  {
    TitleLineAlone();
    IndentedHelloLine();
    TitleSectionSteps("title:", "    Hello");
    TitleSectionDepth();
  }

  lemma TitleSectionSteps(l0: string, l1: string)
    requires LexAll([l0]) == LexState([Title], [])
    requires LineStep([], l1) == Step([Indent, Text("Hello")], [4])
    ensures LexAll([l0, l1]).tokens == [Title, Indent, Text("Hello")]
  {
    var ts, lines := TitleSectionLists(l0, l1);
    SnocLine([l0], l1, LexState([Title], []), Step([Indent, Text("Hello")], [4]), ts);
  }

  lemma TitleSectionLists(l0: string, l1: string) returns (ts: seq<Token>, lines: seq<string>)
    ensures ts == [Title] + [Indent, Text("Hello")] && ts == [Title, Indent, Text("Hello")]
    ensures lines == [l0] + [l1] && lines == [l0, l1]
  {
    ts, lines := [Title, Indent, Text("Hello")], [l0, l1];
  }

  lemma TitleSectionDepth()
    ensures Depth([Title, Indent, Text("Hello")]) == 1
  {
    var ts := [Title, Indent, Text("Hello")];
    assert ts[..2] == [Title, Indent];
    assert ts[..2][..1] == [Title];
    assert [Title][..0] == [];
  }

  lemma TitleLineAlone()
    ensures LexAll(["title:"]) == LexState([Title], [])
  {
    var l0 := "title:";
    assert Width(l0) == 0 && !Blank(l0);
    assert TokenizeLine(l0) == Title;
    assert [l0][..0] == [];
  }

  lemma IndentedHelloLine()
    ensures LineStep([], "    Hello") == Step([Indent, Text("Hello")], [4])
  {
    var l := "    Hello";
    assert Width(l[4..]) == 0;
    assert Width(l) == 4;
    assert TrailingWidth(l) == 0;
    assert Trim(l) == "Hello";
    WordIsText("Hello");
    WiderStep([], l);
  }

  /** Dedenting to a width between two stored widths emits the `Dedent`s
      and no `Indent`: the line is then deeper than the stack says. */
  lemma DedentBetweenLevels()
    ensures LineStep([4], "  x") == Step([Dedent, Text("x")], [])
  {
    var l := "  x";
    assert Width(l[2..]) == 0;
    assert Width(l) == 2;
    assert TrailingWidth(l) == 0;
    assert Trim(l) == "x";
    WordIsText("x");
    assert DedentCount([4], 2) == 1 by {
      assert [4][..0] == [];
    }
    assert Dedents(1) == [Dedent];
    NarrowerStep([4], l);
  }

  /** A word with no space and no colon is read as text. */
  lemma WordIsText(w: string)
    requires w != [] && forall i :: 0 <= i < |w| ==> !IsSpace(w[i]) && w[i] != ':'
    ensures TokenizeLine(w) == Text(w)
  {
    assert IsTrimmed(w) by {
      assert !IsSpace(w[0]) && !IsSpace(w[|w| - 1]);
    }
    assert w[|w| - 1] != ':';
    if |w| >= 5 {
      assert w[..5][4] == w[4] != ':';
      assert w[..5] != "link:";
    }
    if |w| >= 6 {
      assert w[..6][5] == w[5] != ':';
      assert w[..6] != "image:";
    }
    TrimTrimmed(w);
  }

  /** The lines `content:`, `    a`, `        b`, `content:`, `    c`: the
      second `content:` closes both open widths with two `Dedent`s. */
  lemma LexNestedEnd()
    ensures LexAll(["content:", "    a", "        b", "content:", "    c"]).tokens
      == [Content, Indent, Text("a"), Indent, Text("b"), Dedent, Dedent, Content, Indent, Text("c")]
  {
    ContentLine();
    DeeperLine();
    IndentedLetters();
    NestedEndSteps("content:", "    a", "        b", "content:", "    c");
  }

  lemma IndentedLetters()
    ensures LineStep([], "    a") == Step([Indent, Text("a")], [4])
    ensures LineStep([], "    c") == Step([Indent, Text("c")], [4])
    ensures LineStep([], "    d") == Step([Indent, Text("d")], [4])
  {
    IndentedLine("    a", "a");
    IndentedLine("    c", "c");
    IndentedLine("    d", "d");
  }

  /** The steps of those five lines, chained. */
  lemma NestedEndSteps(l0: string, l1: string, l2: string, l3: string, l4: string)
    requires LineStep([], l0) == Step([Content], [])
    requires LineStep([], l1) == Step([Indent, Text("a")], [4])
    requires LineStep([4], l2) == Step([Indent, Text("b")], [4, 8])
    requires LineStep([4, 8], l3) == Step([Dedent, Dedent, Content], [])
    requires LineStep([], l4) == Step([Indent, Text("c")], [4])
    ensures LexAll([l0, l1, l2, l3, l4]).tokens
      == [Content, Indent, Text("a"), Indent, Text("b"), Dedent, Dedent, Content, Indent, Text("c")]
  {
    var t1, t2, t3, t4, t5 := NestedEndTokens();
    var p1, p2, p3, p4 := NestedEndPrefixes(l0, l1, l2, l3, l4);
    SnocLine([], l0, LexState([], []), Step([Content], []), t1);
    SnocLine(p1, l1, LexState(t1, []), Step([Indent, Text("a")], [4]), t2);
    SnocLine(p2, l2, LexState(t2, [4]), Step([Indent, Text("b")], [4, 8]), t3);
    SnocLine(p3, l3, LexState(t3, [4, 8]), Step([Dedent, Dedent, Content], []), t4);
    SnocLine(p4, l4, LexState(t4, []), Step([Indent, Text("c")], [4]), t5);
  }

  /** The prefixes of those five lines. */
  lemma NestedEndPrefixes(l0: string, l1: string, l2: string, l3: string, l4: string)
    returns (p1: seq<string>, p2: seq<string>, p3: seq<string>, p4: seq<string>)
    ensures p1 == [] + [l0] && p2 == p1 + [l1] && p3 == p2 + [l2] && p4 == p3 + [l3]
    ensures p4 + [l4] == [l0, l1, l2, l3, l4]
  {
    p1, p2, p3, p4 := [l0], [l0, l1], [l0, l1, l2], [l0, l1, l2, l3];
  }

  /** The token lists after each of those lines. */
  lemma NestedEndTokens() returns (t1: seq<Token>, t2: seq<Token>, t3: seq<Token>, t4: seq<Token>, t5: seq<Token>)
    ensures t1 == [] + [Content] && t2 == t1 + [Indent, Text("a")] && t3 == t2 + [Indent, Text("b")]
    ensures t4 == t3 + [Dedent, Dedent, Content] && t5 == t4 + [Indent, Text("c")]
    ensures t5 == [Content, Indent, Text("a"), Indent, Text("b"), Dedent, Dedent, Content, Indent, Text("c")]
  {
    t1 := [Content];
    t2 := [Content, Indent, Text("a")];
    t3 := [Content, Indent, Text("a"), Indent, Text("b")];
    t4 := [Content, Indent, Text("a"), Indent, Text("b"), Dedent, Dedent, Content];
    t5 := [Content, Indent, Text("a"), Indent, Text("b"), Dedent, Dedent, Content, Indent, Text("c")];
  }

  /** Lexing one more line applies one `LineStep`, with the state, the step
      and the new tokens named. */
  lemma SnocLine(lines: seq<string>, line: string, s: LexState, step: Step, tokens: seq<Token>)
    requires LexAll(lines) == s && LineStep(s.indents, line) == step
    requires tokens == s.tokens + step.emitted
    ensures LexAll(lines + [line]) == LexState(tokens, step.indents)
  {
    assert (lines + [line])[..|lines|] == lines;
  }

  /** A `content:` line at column 0 closes every open width. */
  lemma ContentLine()
    ensures LineStep([], "content:") == Step([Content], [])
    ensures LineStep([4], "content:") == Step([Dedent, Content], [])
    ensures LineStep([4, 8], "content:") == Step([Dedent, Dedent, Content], [])
  {
    assert Width("content:") == 0 && !Blank("content:") && TokenizeLine("content:") == Content;
    ColumnZeroStep([], "content:");
    ColumnZeroStep([4], "content:");
    ColumnZeroStep([4, 8], "content:");
    assert Dedents(0) == [] && Dedents(1) == [Dedent] && Dedents(2) == [Dedent, Dedent];
  }

  /** Coming back from width 8 to width 4 closes one level and opens none. */
  lemma BackToChild()
    ensures LineStep([4, 8], "    c") == Step([Dedent, Text("c")], [4])
  {
    IndentedLine("    c", "c");
    assert DedentCount([4, 8], 4) == 1 by {
      assert [4, 8][..1] == [4];
    }
    assert Dedents(1) == [Dedent];
    NarrowerStep([4, 8], "    c");
    assert [4, 8][..1] == [4];
  }

  /** The lines `content:`, `    a`, `        b`, `    c`: coming back to
      width 4 emits one `Dedent`, and the stream ends one level deep. */
  lemma LexChildEnd()
    ensures LexAll(["content:", "    a", "        b", "    c"])
      == LexState([Content, Indent, Text("a"), Indent, Text("b"), Dedent, Text("c")], [4])
  {
    ContentLine();
    DeeperLine();
    IndentedLetters();
    BackToChild();
    ChildEndSteps("content:", "    a", "        b", "    c");
  }

  /** The lines of `LexChildEnd` followed by `content:` and `    d`: the
      second `content:` closes the one open width. */
  lemma LexChildEndThenContent()
    ensures LexAll(["content:", "    a", "        b", "    c", "content:", "    d"]).tokens
      == [Content, Indent, Text("a"), Indent, Text("b"), Dedent, Text("c"), Dedent, Content, Indent, Text("d")]
  {
    ContentLine();
    DeeperLine();
    IndentedLetters();
    BackToChild();
    ChildEndThenContentSteps("content:", "    a", "        b", "    c", "content:", "    d");
  }

  /** The steps of the four lines of `LexChildEnd`, chained. */
  lemma ChildEndSteps(l0: string, l1: string, l2: string, l3: string)
    requires LineStep([], l0) == Step([Content], [])
    requires LineStep([], l1) == Step([Indent, Text("a")], [4])
    requires LineStep([4], l2) == Step([Indent, Text("b")], [4, 8])
    requires LineStep([4, 8], l3) == Step([Dedent, Text("c")], [4])
    ensures LexAll([l0, l1, l2, l3])
      == LexState([Content, Indent, Text("a"), Indent, Text("b"), Dedent, Text("c")], [4])
  {
    var t1, t2, t3, t, t5, t6 := ChildEndTokens();
    var p1, p2, p3 := Prefixes(l0, l1, l2, l3);
    SnocLine([], l0, LexState([], []), Step([Content], []), t1);
    SnocLine(p1, l1, LexState(t1, []), Step([Indent, Text("a")], [4]), t2);
    SnocLine(p2, l2, LexState(t2, [4]), Step([Indent, Text("b")], [4, 8]), t3);
    SnocLine(p3, l3, LexState(t3, [4, 8]), Step([Dedent, Text("c")], [4]), t);
  }

  /** The prefixes of four lines. */
  lemma Prefixes(l0: string, l1: string, l2: string, l3: string)
    returns (p1: seq<string>, p2: seq<string>, p3: seq<string>)
    ensures p1 == [] + [l0] && p2 == p1 + [l1] && p3 == p2 + [l2]
    ensures p3 + [l3] == [l0, l1, l2, l3]
  {
    p1, p2, p3 := [l0], [l0, l1], [l0, l1, l2];
  }

  /** The last two steps of `LexChildEndThenContent`. */
  lemma ChildEndThenContentSteps(l0: string, l1: string, l2: string, l3: string, l4: string, l5: string)
    requires LineStep([], l0) == Step([Content], [])
    requires LineStep([], l1) == Step([Indent, Text("a")], [4])
    requires LineStep([4], l2) == Step([Indent, Text("b")], [4, 8])
    requires LineStep([4, 8], l3) == Step([Dedent, Text("c")], [4])
    requires LineStep([4], l4) == Step([Dedent, Content], [])
    requires LineStep([], l5) == Step([Indent, Text("d")], [4])
    ensures LexAll([l0, l1, l2, l3, l4, l5]).tokens
      == [Content, Indent, Text("a"), Indent, Text("b"), Dedent, Text("c"), Dedent, Content, Indent, Text("d")]
  {
    ChildEndSteps(l0, l1, l2, l3);
    var t1, t2, t3, t4, t5, t6 := ChildEndTokens();
    var p4, p5 := LastPrefixes(l0, l1, l2, l3, l4, l5);
    SnocLine(p4, l4, LexState(t4, [4]), Step([Dedent, Content], []), t5);
    SnocLine(p5, l5, LexState(t5, []), Step([Indent, Text("d")], [4]), t6);
  }

  /** The token lists of `ChildEndSteps` and `ChildEndThenContentSteps`,
      each the one before plus a step. */
  lemma ChildEndTokens() returns (t1: seq<Token>, t2: seq<Token>, t3: seq<Token>, t4: seq<Token>, t5: seq<Token>, t6: seq<Token>)
    ensures t1 == [] + [Content] && t2 == t1 + [Indent, Text("a")] && t3 == t2 + [Indent, Text("b")]
    ensures t4 == t3 + [Dedent, Text("c")] && t5 == t4 + [Dedent, Content] && t6 == t5 + [Indent, Text("d")]
    ensures t4 == [Content, Indent, Text("a"), Indent, Text("b"), Dedent, Text("c")]
    ensures t6 == [Content, Indent, Text("a"), Indent, Text("b"), Dedent, Text("c"), Dedent, Content, Indent, Text("d")]
  {
    t1 := [Content];
    t2 := [Content, Indent, Text("a")];
    t3 := [Content, Indent, Text("a"), Indent, Text("b")];
    t4 := [Content, Indent, Text("a"), Indent, Text("b"), Dedent, Text("c")];
    t5 := [Content, Indent, Text("a"), Indent, Text("b"), Dedent, Text("c"), Dedent, Content];
    t6 := [Content, Indent, Text("a"), Indent, Text("b"), Dedent, Text("c"), Dedent, Content, Indent, Text("d")];
  }

  /** The last two prefixes of six lines. */
  lemma LastPrefixes(l0: string, l1: string, l2: string, l3: string, l4: string, l5: string)
    returns (p4: seq<string>, p5: seq<string>)
    ensures p4 == [l0, l1, l2, l3] && p5 == p4 + [l4] && p5 + [l5] == [l0, l1, l2, l3, l4, l5]
  {
    p4, p5 := [l0, l1, l2, l3], [l0, l1, l2, l3, l4];
  }

  /** A one-letter word indented by four spaces. */
  lemma IndentedLine(l: string, w: string)
    requires |w| == 1 && !IsSpace(w[0]) && w[0] != ':' && l == "    " + w
    ensures Width(l) == 4 && !Blank(l) && Trim(l) == w && TokenizeLine(Trim(l)) == Text(w)
    ensures LineStep([], l) == Step([Indent, Text(w)], [4])
  {
    assert Width(l[4..]) == 0;
    assert TrailingWidth(l) == 0;
    assert Trim(l) == w;
    WordIsText(w);
    WiderStep([], l);
  }

  lemma DeeperLine()
    ensures LineStep([4], "        b") == Step([Indent, Text("b")], [4, 8])
  {
    var l := "        b";
    assert Width(l[8..]) == 0;
    assert Width(l[6..]) == 2;
    assert Width(l[4..]) == 4;
    assert Width(l[2..]) == 6;
    assert TrailingWidth(l) == 0;
    assert Trim(l) == "b";
    WordIsText("b");
    WiderStep([4], l);
  }

  /** Any five lines, lexed one `LineStep` at a time from an empty stack. */
  lemma LexFive(l0: string, l1: string, l2: string, l3: string, l4: string,
                e0: seq<Token>, e1: seq<Token>, e2: seq<Token>, e3: seq<Token>, e4: seq<Token>,
                i1: seq<nat>, i2: seq<nat>, i3: seq<nat>, i4: seq<nat>, i5: seq<nat>)
    requires LineStep([], l0) == Step(e0, i1) && LineStep(i1, l1) == Step(e1, i2)
    requires LineStep(i2, l2) == Step(e2, i3) && LineStep(i3, l3) == Step(e3, i4)
    requires LineStep(i4, l4) == Step(e4, i5)
    ensures LexAll([l0, l1, l2, l3, l4]) == LexState(e0 + e1 + e2 + e3 + e4, i5)
  {
    var p1, p2, p3, p4 := NestedEndPrefixes(l0, l1, l2, l3, l4);
    assert e0 == [] + e0;
    SnocLine([], l0, LexState([], []), Step(e0, i1), e0);
    SnocLine(p1, l1, LexState(e0, i1), Step(e1, i2), e0 + e1);
    SnocLine(p2, l2, LexState(e0 + e1, i2), Step(e2, i3), e0 + e1 + e2);
    SnocLine(p3, l3, LexState(e0 + e1 + e2, i3), Step(e3, i4), e0 + e1 + e2 + e3);
    SnocLine(p4, l4, LexState(e0 + e1 + e2 + e3, i4), Step(e4, i5), e0 + e1 + e2 + e3 + e4);
  }

  /** The lines `content:`, `    p:`, `        a`, `content:`, `    b`: the
      paragraph's body opens a second width, and the second `content:`
      closes both. */
  lemma LexBlockEnd()
    ensures LexAll(["content:", "    p:", "        a", "content:", "    b"]).tokens
      == [Content, Indent, Paragraph, Indent, Text("a"), Dedent, Dedent, Content, Indent, Text("b")]
  {
    ContentLine();
    BlockEndLines();
    LexFive("content:", "    p:", "        a", "content:", "    b",
      [Content], [Indent, Paragraph], [Indent, Text("a")], [Dedent, Dedent, Content], [Indent, Text("b")],
      [], [4], [4, 8], [], [4]);
    BlockEndTokens();
  }

  lemma BlockEndTokens()
    ensures [Content] + [Indent, Paragraph] + [Indent, Text("a")] + [Dedent, Dedent, Content] + [Indent, Text("b")]
      == [Content, Indent, Paragraph, Indent, Text("a"), Dedent, Dedent, Content, Indent, Text("b")]
  {
  }

  lemma BlockEndLines()
    ensures LineStep([], "    p:") == Step([Indent, Paragraph], [4])
    ensures LineStep([4], "        a") == Step([Indent, Text("a")], [4, 8])
    ensures LineStep([], "    b") == Step([Indent, Text("b")], [4])
  {
    IndentedParagraph();
    DeeperA();
    IndentedB();
  }

  lemma IndentedB()
    ensures LineStep([], "    b") == Step([Indent, Text("b")], [4])
  {
    IndentedLine("    b", "b");
  }

  lemma IndentedParagraph()
    ensures LineStep([], "    p:") == Step([Indent, Paragraph], [4])
  {
    var l := "    p:";
    assert Width(l[4..]) == 0;
    assert TrailingWidth(l) == 0;
    assert Trim(l) == "p:";
    WiderStep([], l);
  }

  lemma DeeperA()
    ensures LineStep([4], "        a") == Step([Indent, Text("a")], [4, 8])
  {
    var l := "        a";
    assert Width(l[8..]) == 0;
    assert Width(l[6..]) == 2;
    assert Width(l[4..]) == 4;
    assert Width(l[2..]) == 6;
    assert TrailingWidth(l) == 0;
    assert Trim(l) == "a";
    WordIsText("a");
    WiderStep([4], l);
  }

  /** `lex`: one pass over the lines with a stack of widths. Its result is
      `LexAll(lines).tokens`, whose running depth never goes negative and
      ends at the height of the final stack. */
  method Lex(lines: seq<string>) returns (tokens: seq<Token>)
    ensures tokens == LexAll(lines).tokens
    ensures NeverNegative(tokens) && Depth(tokens) == |LexAll(lines).indents|
  {
    tokens := [];
    var indents: seq<nat> := [];
    for n := 0 to |lines|
      invariant LexState(tokens, indents) == LexAll(lines[..n])
    {
      LexAllSnoc(lines, n);
      tokens, indents := LexLine(tokens, indents, lines[n]);
    }
    assert lines[..|lines|] == lines;
    LexAllInvariant(lines);
  }

  /** The body of the loop of `lex` for one line: it appends what
      `LineStep` emits and leaves the stack `LineStep` describes. */
  method LexLine(tokens: seq<Token>, indents: seq<nat>, line: string)
    returns (tokens': seq<Token>, indents': seq<nat>)
    ensures tokens' == tokens + LineStep(indents, line).emitted
    ensures indents' == LineStep(indents, line).indents
  {
    tokens', indents' := tokens, indents;
    if Blank(line) {
      return;
    }
    var indentLevel := Width(line);
    if indentLevel == 0 {
      tokens', indents' := ClearLevels(tokens, indents, line);
    } else if indentLevel > Top(indents) {
      WiderStep(indents, line);
      tokens' := tokens' + [Indent];
      tokens' := tokens' + [TokenizeLine(Trim(line))];
      indents' := indents' + [indentLevel];
      assert tokens' == tokens + [Indent, TokenizeLine(Trim(line))];
    } else if indentLevel < Top(indents) {
      tokens', indents' := CloseLevels(tokens, indents, line);
    } else {
      SameStep(indents, line);
      tokens' := tokens' + [TokenizeLine(Trim(line))];
    }
  }

  /** The branch of the loop of `lex` for a line at column 0: emit a
      `Dedent` for every stored width, clear the stack, then emit the line
      untrimmed. */
  method ClearLevels(tokens: seq<Token>, indents: seq<nat>, line: string)
    returns (tokens': seq<Token>, indents': seq<nat>)
    requires !Blank(line) && Width(line) == 0
    ensures tokens' == tokens + LineStep(indents, line).emitted
    ensures indents' == LineStep(indents, line).indents
  {
    ColumnZeroStep(indents, line);
    tokens' := PushDedents(tokens, |indents|);
    indents' := [];
    tokens' := tokens' + [TokenizeLine(line)];
    assert tokens' == tokens + (Dedents(|indents|) + [TokenizeLine(line)]);
  }

  /** The branch of the loop of `lex` for a line narrower than the top of
      the stack (but not at column 0): count the stored widths it closes,
      emit a `Dedent` for each, truncate the stack, then emit the line. */
  method CloseLevels(tokens: seq<Token>, indents: seq<nat>, line: string)
    returns (tokens': seq<Token>, indents': seq<nat>)
    requires !Blank(line) && 0 < Width(line) < Top(indents)
    ensures tokens' == tokens + LineStep(indents, line).emitted
    ensures indents' == LineStep(indents, line).indents
  {
    var indentLevel := Width(line);
    NarrowerStep(indents, line);
    var dedentCount := CountDedents(indents, indentLevel);
    tokens' := PushDedents(tokens, dedentCount);
    indents' := indents[..|indents| - dedentCount];
    tokens' := tokens' + [TokenizeLine(Trim(line))];
    assert tokens' == tokens + (Dedents(dedentCount) + [TokenizeLine(Trim(line))]);
  }

  /** The `Dedent`-pushing loops of `lex`. */
  method PushDedents(tokens: seq<Token>, n: nat) returns (tokens': seq<Token>)
    ensures tokens' == tokens + Dedents(n)
  {
    tokens' := tokens;
    for i := 0 to n
      invariant tokens' == tokens + Dedents(i)
    {
      tokens' := tokens' + [Dedent];
    }
  }
}
