/** The parser of src/parser.rs: the text-coalescing pass and the two
    recursive procedures that build the document tree. Every `assert!`,
    `panic!`, out-of-bounds `tokens[index]` and `usize` underflow of the
    source is the single outcome `Panic`; `parse` itself never returns an
    error value. */
module Parser {
  import opened Lexer
  import N = Nodes

  // ---------------------------------------------------------------------
  // Coalescing consecutive text tokens
  // ---------------------------------------------------------------------

  /** The text buffer after one more text token: a space is added first
      unless the buffer is empty. */
  function Extend(buffer: string, t: string): string
  {
    if buffer == [] then t else buffer + " " + t
  }

  /** What flushing the buffer emits: nothing when it is empty. */
  function Flush(buffer: string): seq<Token>
  {
    if buffer == [] then [] else [Text(buffer)]
  }

  /** The tokens the loop of `concatenate_consecutive_text_tokens` still
      emits for the remaining input `ts` while its buffer holds `buffer`. */
  function CoalesceFrom(ts: seq<Token>, buffer: string): seq<Token>
    decreases |ts|
  {
    if ts == [] then Flush(buffer)
    else if ts[0].Text? then CoalesceFrom(ts[1..], Extend(buffer, ts[0].value))
    else Flush(buffer) + [ts[0]] + CoalesceFrom(ts[1..], [])
  }

  function Coalesce(ts: seq<Token>): seq<Token>
  {
    CoalesceFrom(ts, [])
  }

  /** No two adjacent text tokens and no empty text token. */
  predicate WellCoalesced(ts: seq<Token>)
  {
    && (forall i :: 0 <= i < |ts| - 1 ==> !(ts[i].Text? && ts[i + 1].Text?))
    && (forall i :: 0 <= i < |ts| ==> ts[i] != Text([]))
  }

  /** The non-text tokens of `ts`, in order. */
  function NonText(ts: seq<Token>): seq<Token>
  {
    if ts == [] then []
    else (if ts[0].Text? then [] else [ts[0]]) + NonText(ts[1..])
  }

  /** One text token per string. */
  function Texts(vs: seq<string>): seq<Token>
  {
    if vs == [] then [] else [Text(vs[0])] + Texts(vs[1..])
  }

  lemma TextsHead(vs: seq<string>, rest: seq<Token>)
    requires |vs| > 0
    ensures (Texts(vs) + rest)[0] == Text(vs[0])
    ensures (Texts(vs) + rest)[1..] == Texts(vs[1..]) + rest
  {
    assert Texts(vs) + rest == [Text(vs[0])] + (Texts(vs[1..]) + rest);
  }

  /** Reading a text token only extends the buffer. */
  lemma CoalesceFromText(ts: seq<Token>, buffer: string)
    requires ts != [] && ts[0].Text?
    ensures CoalesceFrom(ts, buffer) == CoalesceFrom(ts[1..], Extend(buffer, ts[0].value))
  {
  }

  /** The strings joined by single spaces. */
  function JoinSpace(vs: seq<string>): string
    requires |vs| > 0
  {
    if |vs| == 1 then vs[0] else vs[0] + " " + JoinSpace(vs[1..])
  }

  lemma WellCoalescedJoin(a: seq<Token>, b: seq<Token>)
    requires WellCoalesced(a) && WellCoalesced(b)
    requires a == [] || b == [] || !a[|a| - 1].Text? || !b[0].Text?
    ensures WellCoalesced(a + b)
  {
    var ab := a + b;
    forall i | 0 <= i < |ab| - 1 ensures !(ab[i].Text? && ab[i + 1].Text?) {
      if i < |a| - 1 {
        assert ab[i] == a[i] && ab[i + 1] == a[i + 1];
      } else if i >= |a| {
        assert ab[i] == b[i - |a|] && ab[i + 1] == b[i - |a| + 1];
      }
    }
  }

  /** The pass never leaves two text tokens side by side and never emits
      an empty text token, whatever the buffer it starts with. */
  lemma {:induction false} CoalesceFromWellCoalesced(ts: seq<Token>, buffer: string)
    ensures WellCoalesced(CoalesceFrom(ts, buffer))
    decreases |ts|
  {
    if ts != [] {
      if ts[0].Text? {
        CoalesceFromWellCoalesced(ts[1..], Extend(buffer, ts[0].value));
      } else {
        CoalesceFromWellCoalesced(ts[1..], []);
        WellCoalescedJoin(Flush(buffer), [ts[0]]);
        WellCoalescedJoin(Flush(buffer) + [ts[0]], CoalesceFrom(ts[1..], []));
      }
    }
  }

  lemma {:induction false} NonTextAppend(a: seq<Token>, b: seq<Token>)
    ensures NonText(a + b) == NonText(a) + NonText(b)
    decreases |a|
  {
    if a == [] {
      assert a + b == b;
    } else {
      assert (a + b)[0] == a[0];
      assert (a + b)[1..] == a[1..] + b;
      NonTextAppend(a[1..], b);
    }
  }

  /** Every non-text token passes through, in the same order and number. */
  lemma {:induction false} CoalesceFromKeepsNonText(ts: seq<Token>, buffer: string)
    ensures NonText(CoalesceFrom(ts, buffer)) == NonText(ts)
    decreases |ts|
  {
    if ts != [] {
      if ts[0].Text? {
        CoalesceFromKeepsNonText(ts[1..], Extend(buffer, ts[0].value));
      } else {
        CoalesceFromKeepsNonText(ts[1..], []);
        NonTextAppend(Flush(buffer) + [ts[0]], CoalesceFrom(ts[1..], []));
        NonTextAppend(Flush(buffer), [ts[0]]);
        assert NonText([ts[0]]) == [ts[0]];
      }
    }
  }

  /** With a non-empty buffer, a run of text tokens only extends it. */
  lemma {:induction false} CoalesceTextRun(vs: seq<string>, rest: seq<Token>, buffer: string)
    requires |vs| > 0 && buffer != []
    ensures CoalesceFrom(Texts(vs) + rest, buffer) == CoalesceFrom(rest, buffer + " " + JoinSpace(vs))
    decreases |vs|
  {
    var ts := Texts(vs) + rest;
    TextsHead(vs, rest);
    CoalesceFromText(ts, buffer);
    if |vs| == 1 {
      assert Texts(vs[1..]) == [];
      assert ts[1..] == rest;
    } else {
      CoalesceTextRun(vs[1..], rest, buffer + " " + vs[0]);
      assert (buffer + " " + vs[0]) + " " + JoinSpace(vs[1..]) == buffer + " " + JoinSpace(vs);
    }
  }

  /** A maximal run of text tokens whose first value is non-empty becomes
      one text token holding the values joined by single spaces; what
      follows the run is coalesced on its own. */
  lemma CoalesceMaximalRun(vs: seq<string>, rest: seq<Token>)
    requires |vs| > 0 && vs[0] != []
    requires rest == [] || !rest[0].Text?
    ensures Coalesce(Texts(vs) + rest) == [Text(JoinSpace(vs))] + Coalesce(rest)
  {
    var ts := Texts(vs) + rest;
    TextsHead(vs, rest);
    CoalesceFromText(ts, []);
    if |vs| == 1 {
      assert Texts(vs[1..]) == [];
      assert ts[1..] == rest;
    } else {
      CoalesceTextRun(vs[1..], rest, vs[0]);
    }
    FlushBeforeNonText(rest, JoinSpace(vs));
  }

  /** A non-empty buffer followed by a non-text token (or by nothing) is
      emitted as it is. */
  lemma FlushBeforeNonText(rest: seq<Token>, buffer: string)
    requires buffer != []
    requires rest == [] || !rest[0].Text?
    ensures CoalesceFrom(rest, buffer) == [Text(buffer)] + Coalesce(rest)
  {
    assert Flush(buffer) == [Text(buffer)];
    if rest == [] {
      assert Coalesce(rest) == [];
    } else {
      var tail := CoalesceFrom(rest[1..], []);
      assert Coalesce(rest) == [] + [rest[0]] + tail;
      assert CoalesceFrom(rest, buffer) == [Text(buffer)] + [rest[0]] + tail;
    }
  }

  /** The pass works independently on both sides of a non-text token. */
  lemma {:induction false} CoalesceSplit(a: seq<Token>, b: seq<Token>, buffer: string)
    requires a != [] && !a[|a| - 1].Text?
    ensures CoalesceFrom(a + b, buffer) == CoalesceFrom(a, buffer) + Coalesce(b)
    decreases |a|
  {
    assert (a + b)[0] == a[0];
    if |a| == 1 {
      assert (a + b)[1..] == b;
      assert a[1..] == [];
    } else {
      assert (a + b)[1..] == a[1..] + b;
      if a[0].Text? {
        CoalesceSplit(a[1..], b, Extend(buffer, a[0].value));
      } else {
        CoalesceSplit(a[1..], b, []);
      }
    }
  }

  lemma WellCoalescedSuffix(ts: seq<Token>, k: nat)
    requires WellCoalesced(ts) && k <= |ts|
    ensures WellCoalesced(ts[k..])
  {
    var s := ts[k..];
    assert forall i :: 0 <= i < |s| ==> s[i] == ts[k + i];
  }

  /** A text token at position `i` only extends the buffer. */
  lemma TextStep(ts: seq<Token>, i: nat, buffer: string)
    requires i < |ts| && ts[i].Text?
    ensures CoalesceFrom(ts[i..], buffer) == CoalesceFrom(ts[i + 1..], Extend(buffer, ts[i].value))
  {
    assert ts[i..][0] == ts[i];
    assert ts[i..][1..] == ts[i + 1..];
  }

  /** A non-text token at position `i` flushes the buffer after what was
      already emitted, then is emitted itself. */
  lemma NonTextStep(ts: seq<Token>, i: nat, buffer: string, emitted: seq<Token>)
    requires i < |ts| && !ts[i].Text?
    ensures emitted + Flush(buffer) + [ts[i]] + CoalesceFrom(ts[i + 1..], [])
      == emitted + CoalesceFrom(ts[i..], buffer)
  {
    assert ts[i..][0] == ts[i];
    assert ts[i..][1..] == ts[i + 1..];
  }

  /** A well-coalesced list is left as it is. */
  lemma {:induction false} CoalesceFixesWellCoalesced(ts: seq<Token>)
    requires WellCoalesced(ts)
    ensures Coalesce(ts) == ts
    decreases |ts|
  {
    if ts != [] {
      if ts[0].Text? {
        assert ts[0].value != [];
        if |ts| == 1 {
          assert ts[1..] == [];
          assert Coalesce(ts) == CoalesceFrom([], ts[0].value) == [ts[0]];
        } else {
          assert !ts[1].Text?;
          assert ts[1..][0] == ts[1] && ts[1..][1..] == ts[2..];
          WellCoalescedSuffix(ts, 2);
          CoalesceFixesWellCoalesced(ts[2..]);
          assert Coalesce(ts) == CoalesceFrom(ts[1..], ts[0].value)
            == [ts[0]] + [ts[1]] + CoalesceFrom(ts[2..], []);
          assert ts == [ts[0]] + [ts[1]] + ts[2..];
        }
      } else {
        WellCoalescedSuffix(ts, 1);
        CoalesceFixesWellCoalesced(ts[1..]);
        assert ts == [ts[0]] + ts[1..];
      }
    }
  }

  /** Coalescing twice is coalescing once. */
  lemma CoalesceIdempotent(ts: seq<Token>)
    ensures Coalesce(Coalesce(ts)) == Coalesce(ts)
  {
    CoalesceFromWellCoalesced(ts, []);
    CoalesceFixesWellCoalesced(Coalesce(ts));
  }

  /** `concatenate_consecutive_text_tokens`: one pass with a text buffer
      that is flushed before every non-text token and at the end. */
  method ConcatenateConsecutiveTextTokens(tokens: seq<Token>) returns (newTokens: seq<Token>)
    ensures newTokens == Coalesce(tokens)
    ensures WellCoalesced(newTokens)
    ensures NonText(newTokens) == NonText(tokens)
  {
    newTokens := [];
    var text := "";
    assert tokens[0..] == tokens;
    for i := 0 to |tokens|
      invariant newTokens + CoalesceFrom(tokens[i..], text) == Coalesce(tokens)
    {
      var token := tokens[i];
      ghost var buffered := text;
      ghost var emitted := newTokens;
      if token.Text? {
        if text != [] {
          text := text + " ";
        }
        text := text + token.value;
        assert text == Extend(buffered, token.value);
        TextStep(tokens, i, buffered);
      } else {
        if text != [] {
          newTokens := newTokens + [Text(text)];
          text := "";
        }
        newTokens := newTokens + [token];
        assert newTokens == emitted + Flush(buffered) + [token];
        NonTextStep(tokens, i, buffered, emitted);
      }
    }
    assert tokens[|tokens|..] == [];
    if text != [] {
      newTokens := newTokens + [Text(text)];
    }
    CoalesceFromWellCoalesced(tokens, []);
    CoalesceFromKeepsNonText(tokens, []);
  }

  // ---------------------------------------------------------------------
  // Tree building
  // ---------------------------------------------------------------------

  /** The result of a parser procedure, or the single failure outcome that
      stands for every panic. */
  datatype Outcome<T> = Done(value: T) | Panic

  /** The content nodes one content-level call pushes, and the index it
      returns. */
  datatype Advance = Advance(nodes: seq<N.ContentNode>, index: nat)

  function Push(n: N.ContentNode, rest: Outcome<Advance>): Outcome<Advance>
  {
    match rest
    case Panic => Panic
    case Done(a) => Done(Advance([n] + a.nodes, a.index))
  }

  /** `recurse_content_level` started at `index` with the local indentation
      counter at `level`: the nodes it pushes and the index it returns. It
      returns only at the end of the tokens or at a `Dedent`, and never
      before where it started. */
  function ContentLevel(ts: seq<Token>, index: nat, level: nat): (r: Outcome<Advance>)
    decreases |ts| - index, 1
    ensures r.Done? ==> index <= r.value.index
    ensures r.Done? ==> r.value.index >= |ts| || ts[r.value.index] == Dedent
  {
    if index >= |ts| then Done(Advance([], index))
    else match ts[index]
      case Text(t) => Push(N.Text(t), ContentLevel(ts, index + 1, level))
      case Indent => ContentLevel(ts, index + 1, level + 1)
      case Dedent =>
        if level == 0 then Panic
        else if level - 1 == 1 then Done(Advance([], index))
        else ContentLevel(ts, index + 1, level - 1)
      case Paragraph | Link(_) | Image(_) => Block(ts, index, level)
      case _ => Panic
  }

  /** A paragraph, link or image at `index`: its body is a fresh
      content-level call at level 1 just after the tag, and the current
      call resumes one past the index the body returned. An image keeps
      only its body's first node, which must be text, as its caption. */
  function Block(ts: seq<Token>, index: nat, level: nat): (r: Outcome<Advance>)
    requires index < |ts| && (ts[index].Paragraph? || ts[index].Link? || ts[index].Image?)
    decreases |ts| - index, 0
    ensures r.Done? ==> index < r.value.index
    ensures r.Done? ==> r.value.index >= |ts| || ts[r.value.index] == Dedent
  {
    match ContentLevel(ts, index + 1, 1)
    case Panic => Panic
    case Done(body) =>
      match ts[index]
      case Paragraph => Push(N.Paragraph(body.nodes), ContentLevel(ts, body.index + 1, level))
      case Link(url) => Push(N.Link(url, body.nodes), ContentLevel(ts, body.index + 1, level))
      case Image(url) =>
        if body.nodes != [] && body.nodes[0].Text? then
          Push(N.Image(url, body.nodes[0].text), ContentLevel(ts, body.index + 1, level))
        else
          Panic
  }

  /** The leaf node for a title, date or description tag. */
  function LeafNode(tag: Token, text: string): N.Node
    requires tag.Title? || tag.Date? || tag.Description?
  {
    match tag
    case Title => N.Title(text)
    case Date => N.Date(text)
    case _ => N.Description(text)
  }

  function PushRoot(n: N.Node, rest: Outcome<seq<N.Node>>): Outcome<seq<N.Node>>
  {
    match rest
    case Panic => Panic
    case Done(ns) => Done([n] + ns)
  }

  /** `recurse_root_level` started at `index`: the nodes it pushes. The
      only way it finishes without panicking is a content section whose
      content-level call runs to the end of the tokens, so every
      successful result is non-empty and ends with a `Content` node. */
  function RootLevel(ts: seq<Token>, index: nat): (r: Outcome<seq<N.Node>>)
    decreases |ts| - index
    ensures r.Done? ==> r.value != [] && r.value[|r.value| - 1].Content?
  {
    if index >= |ts| then Panic
    else match ts[index]
      case Title | Date | Description =>
        if index + 2 < |ts| && ts[index + 1] == Indent && ts[index + 2].Text? then
          PushRoot(LeafNode(ts[index], ts[index + 2].value), RootLevel(ts, index + 3))
        else
          Panic
      case Content =>
        if index + 1 < |ts| && ts[index + 1] == Indent then
          (match ContentLevel(ts, index + 2, 1)
           case Panic => Panic
           case Done(body) =>
             if body.index < |ts| then PushRoot(N.Content(body.nodes), RootLevel(ts, body.index + 1))
             else Done([N.Content(body.nodes)]))
        else
          Panic
      case _ => RootLevel(ts, index + 1)
  }

  /** `parse`: coalesce, then build the document from the first token. */
  function Parse(tokens: seq<Token>): Outcome<N.Node>
  {
    match RootLevel(Coalesce(tokens), 0)
    case Panic => Panic
    case Done(nodes) => Done(N.Document(nodes))
  }

  // ---------------------------------------------------------------------
  // The procedures, accumulating into the vector they are given
  // ---------------------------------------------------------------------

  /** An outcome whose nodes follow the ones already in the accumulator. */
  function Appended(nodes: seq<N.ContentNode>, o: Outcome<Advance>): Outcome<Advance>
  {
    match o
    case Panic => Panic
    case Done(a) => Done(Advance(nodes + a.nodes, a.index))
  }

  function AppendedRoot(nodes: seq<N.Node>, o: Outcome<seq<N.Node>>): Outcome<seq<N.Node>>
  {
    match o
    case Panic => Panic
    case Done(ns) => Done(nodes + ns)
  }

  lemma AppendedPush(nodes: seq<N.ContentNode>, n: N.ContentNode, o: Outcome<Advance>)
    ensures Appended(nodes + [n], o) == Appended(nodes, Push(n, o))
  {
    if o.Done? {
      assert (nodes + [n]) + o.value.nodes == nodes + ([n] + o.value.nodes);
    }
  }

  lemma AppendedNothing(o: Outcome<Advance>)
    ensures Appended([], o) == o
  {
    if o.Done? {
      assert [] + o.value.nodes == o.value.nodes;
    }
  }

  lemma AppendedRootPush(nodes: seq<N.Node>, n: N.Node, o: Outcome<seq<N.Node>>)
    ensures AppendedRoot(nodes + [n], o) == AppendedRoot(nodes, PushRoot(n, o))
  {
    if o.Done? {
      assert (nodes + [n]) + o.value == nodes + ([n] + o.value);
    }
  }

  lemma AppendedRootNothing(o: Outcome<seq<N.Node>>)
    ensures AppendedRoot([], o) == o
  {
    if o.Done? {
      assert [] + o.value == o.value;
    }
  }

  /** `recurse_content_level`: it only appends to the vector it is given,
      and what it appends and returns is `ContentLevel`. */
  method RecurseContentLevel(index: nat, indentLevel: nat, tokens: seq<Token>, nodes: seq<N.ContentNode>)
    returns (r: Outcome<Advance>)
    decreases |tokens| - index, 1
    ensures r == Appended(nodes, ContentLevel(tokens, index, indentLevel))
  {
    if index >= |tokens| {
      return Done(Advance(nodes, index));
    }
    var level, acc := indentLevel, nodes;
    match tokens[index] {
      case Text(t) =>
        acc := acc + [N.Text(t)];
        AppendedPush(nodes, N.Text(t), ContentLevel(tokens, index + 1, level));
      case Indent =>
        level := level + 1;
      case Dedent =>
        if level == 0 {
          return Panic;
        }
        level := level - 1;
        if level == 1 {
          assert acc + [] == acc;
          return Done(Advance(acc, index));
        }
      case Paragraph =>
        r := RecurseBlock(index, level, tokens, nodes);
        return;
      case Link(_) =>
        r := RecurseBlock(index, level, tokens, nodes);
        return;
      case Image(_) =>
        r := RecurseBlock(index, level, tokens, nodes);
        return;
      case _ =>
        return Panic;
    }
    r := RecurseContentLevel(index + 1, level, tokens, acc);
  }

  /** The paragraph, link and image arms of `recurse_content_level`: the
      body is read by a fresh call at level 1 into an empty vector, the
      node is pushed, and the call goes on one past the index the body
      returned. */
  method RecurseBlock(index: nat, level: nat, tokens: seq<Token>, nodes: seq<N.ContentNode>)
    returns (r: Outcome<Advance>)
    requires index < |tokens| && (tokens[index].Paragraph? || tokens[index].Link? || tokens[index].Image?)
    decreases |tokens| - index, 0
    ensures r == Appended(nodes, Block(tokens, index, level))
  {
    var body := RecurseContentLevel(index + 1, 1, tokens, []);
    AppendedNothing(ContentLevel(tokens, index + 1, 1));
    if body.Panic? {
      return Panic;
    }
    var cursor := body.value.index;
    var node: N.ContentNode;
    match tokens[index] {
      case Paragraph =>
        node := N.Paragraph(body.value.nodes);
      case Link(url) =>
        node := N.Link(url, body.value.nodes);
      case Image(url) =>
        if body.value.nodes != [] && body.value.nodes[0].Text? {
          node := N.Image(url, body.value.nodes[0].text);
        } else {
          return Panic;
        }
    }
    AppendedPush(nodes, node, ContentLevel(tokens, cursor + 1, level));
    r := RecurseContentLevel(cursor + 1, level, tokens, nodes + [node]);
  }

  /** `recurse_root_level`: it only appends to the vector it is given, and
      what it appends is `RootLevel`. */
  method RecurseRootLevel(index: nat, tokens: seq<Token>, nodes: seq<N.Node>)
    returns (r: Outcome<seq<N.Node>>)
    decreases |tokens| - index
    ensures r == AppendedRoot(nodes, RootLevel(tokens, index))
  {
    if index >= |tokens| {
      return Panic;
    }
    var cursor, acc := index, nodes;
    var rootToken := tokens[index];
    if rootToken.Title? || rootToken.Date? || rootToken.Description? {
      cursor := cursor + 1;
      if cursor >= |tokens| || tokens[cursor] != Indent {
        return Panic;
      }
      cursor := cursor + 1;
      if cursor >= |tokens| || !tokens[cursor].Text? {
        return Panic;
      }
      var leaf := LeafNode(rootToken, tokens[cursor].value);
      acc := acc + [leaf];
      AppendedRootPush(nodes, leaf, RootLevel(tokens, cursor + 1));
    } else if rootToken.Content? {
      cursor := cursor + 1;
      if cursor >= |tokens| || tokens[cursor] != Indent {
        return Panic;
      }
      var body := RecurseContentLevel(cursor + 1, 1, tokens, []);
      AppendedNothing(ContentLevel(tokens, cursor + 1, 1));
      if body.Panic? {
        return Panic;
      }
      cursor := body.value.index;
      acc := acc + [N.Content(body.value.nodes)];
      AppendedRootPush(nodes, N.Content(body.value.nodes), RootLevel(tokens, cursor + 1));
    }
    if cursor < |tokens| {
      r := RecurseRootLevel(cursor + 1, tokens, acc);
    } else {
      r := Done(acc);
    }
  }

  /** `parse`: a document when building succeeds, `Panic` otherwise. */
  method ParseTokens(tokens: seq<Token>) returns (r: Outcome<N.Node>)
    ensures r == Parse(tokens)
  {
    var coalesced := ConcatenateConsecutiveTextTokens(tokens);
    var nodes := RecurseRootLevel(0, coalesced, []);
    AppendedRootNothing(RootLevel(coalesced, 0));
    match nodes {
      case Panic => r := Panic;
      case Done(ns) => r := Done(N.Document(ns));
    }
  }

  // ---------------------------------------------------------------------
  // Properties of the tree builder
  // ---------------------------------------------------------------------

  lemma DepthSlices(ts: seq<Token>, i: nat, k: nat, j: nat)
    requires i <= k <= j <= |ts|
    ensures Depth(ts[i..j]) == Depth(ts[i..k]) + Depth(ts[k..j])
  {
    assert ts[i..j] == ts[i..k] + ts[k..j];
    DepthAppend(ts[i..k], ts[k..j]);
  }

  lemma DepthOne(ts: seq<Token>, i: nat)
    requires i < |ts|
    ensures Depth(ts[i..i + 1]) == Delta(ts[i])
  {
    assert ts[i..i + 1][..0] == [];
  }

  /** When a content-level call started at `level` returns an index inside
      the tokens, the tokens from its start through the `Dedent` at that
      index have depth `1 - level`: the local counter is one plus the
      depth seen so far, and the call returns exactly when it falls back to
      one. */
  lemma {:induction false} ContentLevelDepth(ts: seq<Token>, index: nat, level: nat, j: nat)
    requires ContentLevel(ts, index, level).Done? && ContentLevel(ts, index, level).value.index == j
    requires j < |ts|
    ensures Depth(ts[index..j + 1]) == 1 - level
    decreases |ts| - index, 1
  {
    var t := ts[index];
    if t.Paragraph? || t.Link? || t.Image? {
      NestedDepth(ts, index, level, j);
    } else {
      FlatDepth(ts, index, level, j);
    }
  }

  lemma {:induction false} FlatDepth(ts: seq<Token>, index: nat, level: nat, j: nat)
    requires index < |ts| && !(ts[index].Paragraph? || ts[index].Link? || ts[index].Image?)
    requires ContentLevel(ts, index, level).Done? && ContentLevel(ts, index, level).value.index == j
    requires j < |ts|
    ensures Depth(ts[index..j + 1]) == 1 - level
    decreases |ts| - index, 0
  {
    var t := ts[index];
    if t.Dedent? && level - 1 == 1 {
      DepthOne(ts, index);
    } else {
      var next := if t.Indent? then level + 1 else if t.Dedent? then level - 1 else level;
      assert ContentLevel(ts, index + 1, next).Done? && ContentLevel(ts, index + 1, next).value.index == j;
      ContentLevelDepth(ts, index + 1, next, j);
      StepDepth(ts, index, j);
    }
  }

  /** A successful block's body succeeded, and the block returns what the
      resumed call at the current level returns. */
  lemma BlockResumes(ts: seq<Token>, index: nat, level: nat)
    requires index < |ts| && (ts[index].Paragraph? || ts[index].Link? || ts[index].Image?)
    requires ContentLevel(ts, index, level).Done?
    ensures ContentLevel(ts, index + 1, 1).Done?
    ensures var b := ContentLevel(ts, index + 1, 1).value.index;
      && ContentLevel(ts, b + 1, level).Done?
      && ContentLevel(ts, index, level).value.index == ContentLevel(ts, b + 1, level).value.index
  {
    assert ContentLevel(ts, index, level) == Block(ts, index, level);
  }

  lemma {:induction false} NestedDepth(ts: seq<Token>, index: nat, level: nat, j: nat)
    requires index < |ts| && (ts[index].Paragraph? || ts[index].Link? || ts[index].Image?)
    requires ContentLevel(ts, index, level).Done? && ContentLevel(ts, index, level).value.index == j
    requires j < |ts|
    ensures Depth(ts[index..j + 1]) == 1 - level
    decreases |ts| - index, 0
  {
    BlockResumes(ts, index, level);
    var b := ContentLevel(ts, index + 1, 1).value.index;
    assert j == ContentLevel(ts, b + 1, level).value.index;
    assert b < j && Delta(ts[index]) == 0;
    ContentLevelDepth(ts, index + 1, 1, b);
    ContentLevelDepth(ts, b + 1, level, j);
    NestedStepDepth(ts, index, b, j, level);
  }

  lemma StepDepth(ts: seq<Token>, index: nat, j: nat)
    requires index <= j < |ts|
    ensures Depth(ts[index..j + 1]) == Delta(ts[index]) + Depth(ts[index + 1..j + 1])
  {
    DepthOne(ts, index);
    DepthSlices(ts, index, index + 1, j + 1);
  }

  /** A tag, a balanced body closed by the `Dedent` at `b`, then the rest
      of the level up to `j`. */
  lemma NestedStepDepth(ts: seq<Token>, index: nat, b: nat, j: nat, level: nat)
    requires index < b < j < |ts| && Delta(ts[index]) == 0
    requires Depth(ts[index + 1..b + 1]) == 0 && Depth(ts[b + 1..j + 1]) == 1 - level
    ensures Depth(ts[index..j + 1]) == 1 - level
  {
    StepDepth(ts, index, j);
    DepthSlices(ts, index + 1, b + 1, j + 1);
  }

  /** A content section's call never returns at the `Dedent` that closes
      the section: when it returns inside the tokens, it is at a `Dedent`
      that closes a deeper level, the section's own `Indent` is still open,
      and the root procedure resumes inside it. */
  lemma ContentSectionStaysOpen(ts: seq<Token>, i: nat)
    requires i + 1 < |ts| && ts[i] == Content && ts[i + 1] == Indent
    requires ContentLevel(ts, i + 2, 1).Done?
    ensures var j := ContentLevel(ts, i + 2, 1).value.index;
      j < |ts| ==> ts[j] == Dedent && Depth(ts[i + 1..j + 1]) == 1
  {
    var j := ContentLevel(ts, i + 2, 1).value.index;
    if j < |ts| {
      ContentLevelDepth(ts, i + 2, 1, j);
      DepthSlices(ts, i + 1, i + 2, j + 1);
      DepthOne(ts, i + 1);
    }
  }

  /** Every text node and every caption in the tree is non-empty. */
  predicate Filled(c: N.ContentNode)
  {
    match c
    case Text(t) => t != []
    case Image(_, caption) => caption != []
    case Paragraph(cs) => forall i :: 0 <= i < |cs| ==> Filled(cs[i])
    case Link(_, cs) => forall i :: 0 <= i < |cs| ==> Filled(cs[i])
  }

  predicate AllFilled(cs: seq<N.ContentNode>)
  {
    forall i :: 0 <= i < |cs| ==> Filled(cs[i])
  }

  predicate NodeFilled(n: N.Node)
  {
    match n
    case Document(ns) => forall i :: 0 <= i < |ns| ==> NodeFilled(ns[i])
    case Title(t) => t != []
    case Date(t) => t != []
    case Description(t) => t != []
    case Content(cs) => AllFilled(cs)
  }

  predicate NoEmptyText(ts: seq<Token>)
  {
    forall i :: 0 <= i < |ts| ==> ts[i] != Text([])
  }

  lemma AllFilledCons(n: N.ContentNode, cs: seq<N.ContentNode>)
    requires Filled(n) && AllFilled(cs)
    ensures AllFilled([n] + cs)
  {
    var ncs := [n] + cs;
    forall i | 0 <= i < |ncs| ensures Filled(ncs[i]) {
      if i > 0 {
        assert ncs[i] == cs[i - 1];
      }
    }
  }

  /** Without empty text tokens, a content-level call builds no empty text
      node and no empty caption. */
  lemma {:induction false} ContentLevelFilled(ts: seq<Token>, index: nat, level: nat)
    requires NoEmptyText(ts)
    requires ContentLevel(ts, index, level).Done?
    ensures AllFilled(ContentLevel(ts, index, level).value.nodes)
    decreases |ts| - index, 1
  {
    if index < |ts| {
      var t := ts[index];
      if t.Text? {
        ContentLevelFilled(ts, index + 1, level);
        AllFilledCons(N.Text(t.value), ContentLevel(ts, index + 1, level).value.nodes);
      } else if t.Indent? {
        ContentLevelFilled(ts, index + 1, level + 1);
      } else if t.Dedent? {
        if level - 1 != 1 {
          ContentLevelFilled(ts, index + 1, level - 1);
        }
      } else if t.Paragraph? || t.Link? || t.Image? {
        BlockFilled(ts, index, level);
      }
    }
  }

  lemma {:induction false} BlockFilled(ts: seq<Token>, index: nat, level: nat)
    requires NoEmptyText(ts)
    requires index < |ts| && (ts[index].Paragraph? || ts[index].Link? || ts[index].Image?)
    requires Block(ts, index, level).Done?
    ensures AllFilled(Block(ts, index, level).value.nodes)
    decreases |ts| - index, 0
  {
    var body := ContentLevel(ts, index + 1, 1).value;
    ContentLevelFilled(ts, index + 1, 1);
    ContentLevelFilled(ts, body.index + 1, level);
    var rest := ContentLevel(ts, body.index + 1, level).value.nodes;
    var n := Block(ts, index, level).value.nodes[0];
    if ts[index].Image? {
      assert Filled(body.nodes[0]);
    }
    AllFilledCons(n, rest);
  }

  predicate AllNodesFilled(ns: seq<N.Node>)
  {
    forall i :: 0 <= i < |ns| ==> NodeFilled(ns[i])
  }

  lemma AllNodesFilledPush(n: N.Node, o: Outcome<seq<N.Node>>)
    requires NodeFilled(n) && o.Done? && AllNodesFilled(o.value)
    ensures AllNodesFilled(PushRoot(n, o).value)
  {
    var ns := PushRoot(n, o).value;
    forall i | 0 <= i < |ns| ensures NodeFilled(ns[i]) {
      if i > 0 {
        assert ns[i] == o.value[i - 1];
      }
    }
  }

  /** Without empty text tokens, the root procedure builds only filled nodes. */
  lemma {:induction false} RootLevelFilled(ts: seq<Token>, index: nat)
    requires NoEmptyText(ts)
    requires RootLevel(ts, index).Done?
    ensures AllNodesFilled(RootLevel(ts, index).value)
    decreases |ts| - index
  {
    var t := ts[index];
    if t.Title? || t.Date? || t.Description? {
      RootLevelFilled(ts, index + 3);
      assert ts[index + 2] != Text([]);
      AllNodesFilledPush(LeafNode(t, ts[index + 2].value), RootLevel(ts, index + 3));
    } else if t.Content? {
      ContentSectionFilled(ts, index);
    } else {
      RootLevelFilled(ts, index + 1);
    }
  }

  lemma {:induction false} ContentSectionFilled(ts: seq<Token>, index: nat)
    requires NoEmptyText(ts)
    requires index < |ts| && ts[index].Content? && RootLevel(ts, index).Done?
    ensures AllNodesFilled(RootLevel(ts, index).value)
    decreases |ts| - index, 0
  {
    var body := ContentLevel(ts, index + 2, 1).value;
    ContentLevelFilled(ts, index + 2, 1);
    assert NodeFilled(N.Content(body.nodes));
    if body.index < |ts| {
      RootLevelFilled(ts, body.index + 1);
      AllNodesFilledPush(N.Content(body.nodes), RootLevel(ts, body.index + 1));
    }
  }

  /** A parsed document is a `Document` whose nodes are non-empty, end with
      a content section, and hold no empty text, caption or heading. */
  lemma ParsedDocument(tokens: seq<Token>)
    requires Parse(tokens).Done?
    ensures var d := Parse(tokens).value;
      && d.Document? && d.nodes != [] && d.nodes[|d.nodes| - 1].Content?
      && NodeFilled(d)
  {
    CoalesceFromWellCoalesced(tokens, []);
    RootLevelFilled(Coalesce(tokens), 0);
    assert AllNodesFilled(Parse(tokens).value.nodes);
  }

  /** At the root, a title, date or description succeeds exactly when an
      `Indent` and a text token follow it and the rest succeeds; its leaf
      comes first, ahead of everything the rest appends, so repeated
      sections are all kept in order. */
  lemma RootLeafSection(ts: seq<Token>, i: nat)
    requires i < |ts| && (ts[i].Title? || ts[i].Date? || ts[i].Description?)
    ensures RootLevel(ts, i).Done? <==>
      i + 2 < |ts| && ts[i + 1] == Indent && ts[i + 2].Text? && RootLevel(ts, i + 3).Done?
    ensures RootLevel(ts, i).Done? ==>
      RootLevel(ts, i).value == [LeafNode(ts[i], ts[i + 2].value)] + RootLevel(ts, i + 3).value
  {
  }

  /** At the root, a content section succeeds exactly when an `Indent`
      follows it and its content-level call, started just after that
      `Indent` at level 1, succeeds, and then either that call ran to the
      end of the tokens or the root procedure succeeds one past where it
      returned. The section's node comes first, followed by every node
      that resumed root call appends. */
  lemma RootContentSection(ts: seq<Token>, i: nat)
    requires i < |ts| && ts[i].Content?
    ensures RootLevel(ts, i).Done? <==>
      && i + 1 < |ts| && ts[i + 1] == Indent
      && ContentLevel(ts, i + 2, 1).Done?
      && (ContentLevel(ts, i + 2, 1).value.index < |ts| ==>
            RootLevel(ts, ContentLevel(ts, i + 2, 1).value.index + 1).Done?)
    ensures RootLevel(ts, i).Done? ==>
      var body := ContentLevel(ts, i + 2, 1).value;
      RootLevel(ts, i).value
        == [N.Content(body.nodes)] + (if body.index < |ts| then RootLevel(ts, body.index + 1).value else [])
  {
  }

  /** Any other token at the root is skipped. */
  lemma RootSkipsOtherTokens(ts: seq<Token>, i: nat)
    requires i < |ts| && !(ts[i].Title? || ts[i].Date? || ts[i].Description? || ts[i].Content?)
    ensures RootLevel(ts, i) == RootLevel(ts, i + 1)
  {
  }

  /** An image takes the first node of its body as its caption, which must
      be a text node; the rest of the body is dropped. */
  lemma ImageCaptionIsFirstText(ts: seq<Token>, index: nat, level: nat)
    requires index < |ts| && ts[index].Image?
    requires ContentLevel(ts, index + 1, 1).Done?
    ensures var body := ContentLevel(ts, index + 1, 1).value.nodes;
      && ((body == [] || !body[0].Text?) ==> ContentLevel(ts, index, level) == Panic)
      && (ContentLevel(ts, index, level).Done? ==>
            && body != [] && body[0].Text?
            && |ContentLevel(ts, index, level).value.nodes| > 0
            && ContentLevel(ts, index, level).value.nodes[0] == N.Image(ts[index].url, body[0].text))
  {
    assert ContentLevel(ts, index, level) == Block(ts, index, level);
  }

  /** A root tag inside a content section fails. */
  lemma RootTagInContentPanics(ts: seq<Token>, index: nat, level: nat)
    requires index < |ts| && (ts[index].Title? || ts[index].Date? || ts[index].Description? || ts[index].Content?)
    ensures ContentLevel(ts, index, level) == Panic
  {
  }

  /** An empty token list fails: there is no first token to look at. */
  lemma EmptyTokensPanic()
    ensures Parse([]) == Panic
  {
  }

  /** A title with no content section fails: after the title the root
      procedure runs past the last token. */
  lemma TitleWithoutContentPanics()
    ensures Parse([Title, Indent, Text("Hello")]) == Panic
  {
    CoalesceFixesWellCoalesced([Title, Indent, Text("Hello")]);
  }

  /** Consecutive text lines of a paragraph are joined by a space. */
  lemma ParagraphLinesJoined()
    ensures Parse([Content, Indent, Paragraph, Indent, Text("a"), Text("b")])
      == Done(N.Document([N.Content([N.Paragraph([N.Text("a b")])])]))
  {
    ParagraphTextsCoalesced();
    ParagraphTree();
  }

  lemma ParagraphTextsCoalesced()
    ensures Coalesce([Content, Indent, Paragraph, Indent, Text("a"), Text("b")])
      == [Content, Indent, Paragraph, Indent, Text("a b")]
  {
    var head := [Content, Indent, Paragraph, Indent];
    var lines := ["a", "b"];
    assert Texts(lines) == [Text("a"), Text("b")];
    assert JoinSpace(lines) == "a b" by {
      assert lines[1..] == ["b"];
    }
    CoalesceSplit(head, Texts(lines), []);
    CoalesceFixesWellCoalesced(head);
    assert Texts(lines) + [] == Texts(lines);
    CoalesceMaximalRun(lines, []);
    assert [Text("a b")] + Coalesce([]) == [Text("a b")];
    assert [Content, Indent, Paragraph, Indent, Text("a"), Text("b")] == head + Texts(lines);
  }

  lemma ParagraphTree()
    ensures RootLevel([Content, Indent, Paragraph, Indent, Text("a b")], 0)
      == Done([N.Content([N.Paragraph([N.Text("a b")])])])
  {
    var ts := [Content, Indent, Paragraph, Indent, Text("a b")];
    assert ContentLevel(ts, 5, 2) == Done(Advance([], 5));
    assert [N.Text("a b")] + [] == [N.Text("a b")];
    assert ContentLevel(ts, 4, 2) == Done(Advance([N.Text("a b")], 5));
    assert ContentLevel(ts, 3, 1) == Done(Advance([N.Text("a b")], 5));
    assert ContentLevel(ts, 6, 1) == Done(Advance([], 6));
    assert [N.Paragraph([N.Text("a b")])] + [] == [N.Paragraph([N.Text("a b")])];
    assert ContentLevel(ts, 2, 1) == Done(Advance([N.Paragraph([N.Text("a b")])], 6));
  }

  /** An image's caption is the text line under it. */
  lemma ImageCaptionExample()
    ensures Parse([Content, Indent, Image("x.png"), Indent, Text("cap")])
      == Done(N.Document([N.Content([N.Image("x.png", "cap")])]))
  {
    var ts := [Content, Indent, Image("x.png"), Indent, Text("cap")];
    CoalesceFixesWellCoalesced(ts);
    ImageCaptionTree(ts);
  }

  lemma ImageCaptionTree(ts: seq<Token>)
    requires ts == [Content, Indent, Image("x.png"), Indent, Text("cap")]
    ensures RootLevel(ts, 0) == Done([N.Content([N.Image("x.png", "cap")])])
  {
    assert ContentLevel(ts, 5, 2) == Done(Advance([], 5));
    assert [N.Text("cap")] + [] == [N.Text("cap")];
    assert ContentLevel(ts, 4, 2) == Done(Advance([N.Text("cap")], 5));
    assert ContentLevel(ts, 3, 1) == Done(Advance([N.Text("cap")], 5));
    assert ContentLevel(ts, 6, 1) == Done(Advance([], 6));
    assert [N.Image("x.png", "cap")] + [] == [N.Image("x.png", "cap")];
    assert ContentLevel(ts, 2, 1) == Done(Advance([N.Image("x.png", "cap")], 6));
  }

  /** An image whose body holds more than its caption keeps the caption
      and drops the rest of the body. */
  lemma ImageDropsRestOfBody()
    ensures Parse([Content, Indent, Image("x.png"), Indent, Text("cap"), Paragraph, Indent, Text("x")])
      == Done(N.Document([N.Content([N.Image("x.png", "cap")])]))
  {
    var ts := [Content, Indent, Image("x.png"), Indent, Text("cap"), Paragraph, Indent, Text("x")];
    CoalesceFixesWellCoalesced(ts);
    ImageSectionTree(ts);
  }

  lemma ImageSectionTree(ts: seq<Token>)
    requires ts == [Content, Indent, Image("x.png"), Indent, Text("cap"), Paragraph, Indent, Text("x")]
    ensures RootLevel(ts, 0) == Done([N.Content([N.Image("x.png", "cap")])])
  {
    ImageBodyTree(ts);
    assert ContentLevel(ts, 10, 1) == Done(Advance([], 10));
    assert [N.Image("x.png", "cap")] + [] == [N.Image("x.png", "cap")];
    assert ContentLevel(ts, 2, 1) == Done(Advance([N.Image("x.png", "cap")], 10));
  }

  lemma ImageBodyTree(ts: seq<Token>)
    requires ts == [Content, Indent, Image("x.png"), Indent, Text("cap"), Paragraph, Indent, Text("x")]
    ensures ContentLevel(ts, 3, 1) == Done(Advance([N.Text("cap"), N.Paragraph([N.Text("x")])], 9))
  {
    assert ContentLevel(ts, 8, 2) == Done(Advance([], 8));
    assert [N.Text("x")] + [] == [N.Text("x")];
    assert ContentLevel(ts, 7, 2) == Done(Advance([N.Text("x")], 8));
    assert ContentLevel(ts, 6, 1) == Done(Advance([N.Text("x")], 8));
    assert ContentLevel(ts, 9, 2) == Done(Advance([], 9));
    assert [N.Paragraph([N.Text("x")])] + [] == [N.Paragraph([N.Text("x")])];
    assert ContentLevel(ts, 5, 2) == Done(Advance([N.Paragraph([N.Text("x")])], 9));
    assert [N.Text("cap")] + [N.Paragraph([N.Text("x")])] == [N.Text("cap"), N.Paragraph([N.Text("x")])];
    assert ContentLevel(ts, 4, 2) == Done(Advance([N.Text("cap"), N.Paragraph([N.Text("x")])], 9));
  }

  /** An image whose body starts with a paragraph fails. */
  lemma ImageWithoutCaptionPanics()
    ensures Parse([Content, Indent, Image("x.png"), Indent, Paragraph, Indent, Text("a")]) == Panic
  {
    var ts := [Content, Indent, Image("x.png"), Indent, Paragraph, Indent, Text("a")];
    CoalesceFixesWellCoalesced(ts);
    ImageWithoutCaptionTree(ts);
  }

  lemma ImageWithoutCaptionTree(ts: seq<Token>)
    requires ts == [Content, Indent, Image("x.png"), Indent, Paragraph, Indent, Text("a")]
    ensures RootLevel(ts, 0) == Panic
  {
    assert [N.Text("a")] + [] == [N.Text("a")];
    assert ContentLevel(ts, 6, 2) == Done(Advance([N.Text("a")], 7));
    assert ContentLevel(ts, 5, 1) == Done(Advance([N.Text("a")], 7));
    assert ContentLevel(ts, 8, 2) == Done(Advance([], 8));
    assert [N.Paragraph([N.Text("a")])] + [] == [N.Paragraph([N.Text("a")])];
    assert ContentLevel(ts, 4, 2) == Done(Advance([N.Paragraph([N.Text("a")])], 8));
    assert ContentLevel(ts, 3, 1) == Done(Advance([N.Paragraph([N.Text("a")])], 8));
    assert Block(ts, 2, 1) == Panic;
    assert ContentLevel(ts, 2, 1) == Panic;
  }

  /** A title before the content section is kept, and the `Dedent` between
      them is skipped at the root. */
  lemma TitleThenContent()
    ensures Parse([Title, Indent, Text("T"), Dedent, Content, Indent, Text("a")])
      == Done(N.Document([N.Title("T"), N.Content([N.Text("a")])]))
  {
    var ts := [Title, Indent, Text("T"), Dedent, Content, Indent, Text("a")];
    CoalesceFixesWellCoalesced(ts);
    TitleThenContentTree(ts);
  }

  lemma TitleThenContentTree(ts: seq<Token>)
    requires ts == [Title, Indent, Text("T"), Dedent, Content, Indent, Text("a")]
    ensures RootLevel(ts, 0) == Done([N.Title("T"), N.Content([N.Text("a")])])
  {
    assert [N.Text("a")] + [] == [N.Text("a")];
    assert ContentLevel(ts, 6, 1) == Done(Advance([N.Text("a")], 7));
    assert RootLevel(ts, 4) == Done([N.Content([N.Text("a")])]);
    assert RootLevel(ts, 3) == Done([N.Content([N.Text("a")])]);
    assert [N.Title("T")] + [N.Content([N.Text("a")])] == [N.Title("T"), N.Content([N.Text("a")])];
    assert RootLevel(ts, 0) == Done([N.Title("T"), N.Content([N.Text("a")])]);
  }

  /** `Content, Indent, a, Dedent, Title, Indent, b`: the section never goes
      deeper than its own level, so the `Dedent` after `a` takes the counter
      from 1 to 0 instead of returning, and the title that follows is read
      inside content, where it is not allowed. */
  lemma ContentThenTitlePanics()
    ensures Parse([Content, Indent, Text("a"), Dedent, Title, Indent, Text("b")]) == Panic
  {
    var ts := [Content, Indent, Text("a"), Dedent, Title, Indent, Text("b")];
    CoalesceFixesWellCoalesced(ts);
    ContentThenTitleTree(ts);
  }

  lemma ContentThenTitleTree(ts: seq<Token>)
    requires ts == [Content, Indent, Text("a"), Dedent, Title, Indent, Text("b")]
    ensures RootLevel(ts, 0) == Panic
  {
    assert ContentLevel(ts, 3, 1) == Panic;
  }

  /** `Content, Indent, a, Indent, b, Dedent, Dedent, Content, Indent, c`:
      the first of the two `Dedent`s takes the counter from 2 to 1 and
      returns, the root skips the second one, and the second content section
      is read and appended in order. */
  lemma NestedEndThenContent()
    ensures Parse([Content, Indent, Text("a"), Indent, Text("b"), Dedent, Dedent, Content, Indent, Text("c")])
      == Done(N.Document([N.Content([N.Text("a"), N.Text("b")]), N.Content([N.Text("c")])]))
  {
    var ts := [Content, Indent, Text("a"), Indent, Text("b"), Dedent, Dedent, Content, Indent, Text("c")];
    CoalesceFixesWellCoalesced(ts);
    NestedEndThenContentTree(ts);
  }

  lemma NestedEndThenContentTree(ts: seq<Token>)
    requires ts == [Content, Indent, Text("a"), Indent, Text("b"), Dedent, Dedent, Content, Indent, Text("c")]
    ensures RootLevel(ts, 0) == Done([N.Content([N.Text("a"), N.Text("b")]), N.Content([N.Text("c")])])
  {
    assert ContentLevel(ts, 5, 2) == Done(Advance([], 5));
    assert [N.Text("b")] + [] == [N.Text("b")];
    assert ContentLevel(ts, 4, 2) == Done(Advance([N.Text("b")], 5));
    assert ContentLevel(ts, 3, 1) == Done(Advance([N.Text("b")], 5));
    assert [N.Text("a")] + [N.Text("b")] == [N.Text("a"), N.Text("b")];
    assert ContentLevel(ts, 2, 1) == Done(Advance([N.Text("a"), N.Text("b")], 5));
    assert ContentLevel(ts, 10, 1) == Done(Advance([], 10));
    assert [N.Text("c")] + [] == [N.Text("c")];
    assert ContentLevel(ts, 9, 1) == Done(Advance([N.Text("c")], 10));
    assert RootLevel(ts, 7) == Done([N.Content([N.Text("c")])]);
    assert RootLevel(ts, 6) == Done([N.Content([N.Text("c")])]);
    assert [N.Content([N.Text("a"), N.Text("b")])] + [N.Content([N.Text("c")])]
      == [N.Content([N.Text("a"), N.Text("b")]), N.Content([N.Text("c")])];
    RootContentSection(ts, 0);
  }

  /** `Content, Indent, a, Indent, b, Dedent, c`: the section's call returns
      at the `Dedent` that comes back from `b` to the section's own level,
      the root skips `c` as it skips any text, and then reads past the last
      token. The text `c` belongs to no node and the whole parse fails. */
  lemma ChildEndPanics()
    ensures Parse([Content, Indent, Text("a"), Indent, Text("b"), Dedent, Text("c")]) == Panic
  {
    var ts := [Content, Indent, Text("a"), Indent, Text("b"), Dedent, Text("c")];
    CoalesceFixesWellCoalesced(ts);
    ChildEndTree(ts);
  }

  lemma ChildEndTree(ts: seq<Token>)
    requires ts == [Content, Indent, Text("a"), Indent, Text("b"), Dedent, Text("c")]
    ensures RootLevel(ts, 0) == Panic
  {
    assert ContentLevel(ts, 5, 2) == Done(Advance([], 5));
    assert ContentLevel(ts, 4, 2) == Done(Advance([N.Text("b")] + [], 5));
    assert ContentLevel(ts, 2, 1).Done?;
    assert RootLevel(ts, 7) == Panic;
    assert RootLevel(ts, 6) == Panic;
  }

  /** The tokens of `ChildEndPanics` followed by `Dedent, Content, Indent, d`:
      the text `c` is still dropped, and the later content section is read
      and appended. */
  lemma MidSectionReturnDropsText()
    ensures Parse([Content, Indent, Text("a"), Indent, Text("b"), Dedent, Text("c"), Dedent, Content, Indent, Text("d")])
      == Done(N.Document([N.Content([N.Text("a"), N.Text("b")]), N.Content([N.Text("d")])]))
  {
    var ts := [Content, Indent, Text("a"), Indent, Text("b"), Dedent, Text("c"), Dedent, Content, Indent, Text("d")];
    CoalesceFixesWellCoalesced(ts);
    MidSectionReturnTree(ts);
  }

  lemma MidSectionReturnTree(ts: seq<Token>)
    requires ts == [Content, Indent, Text("a"), Indent, Text("b"), Dedent, Text("c"), Dedent, Content, Indent, Text("d")]
    ensures RootLevel(ts, 0) == Done([N.Content([N.Text("a"), N.Text("b")]), N.Content([N.Text("d")])])
  {
    assert ContentLevel(ts, 5, 2) == Done(Advance([], 5));
    assert [N.Text("b")] + [] == [N.Text("b")];
    assert ContentLevel(ts, 4, 2) == Done(Advance([N.Text("b")], 5));
    assert ContentLevel(ts, 3, 1) == Done(Advance([N.Text("b")], 5));
    assert [N.Text("a")] + [N.Text("b")] == [N.Text("a"), N.Text("b")];
    assert ContentLevel(ts, 2, 1) == Done(Advance([N.Text("a"), N.Text("b")], 5));
    assert ContentLevel(ts, 11, 1) == Done(Advance([], 11));
    assert [N.Text("d")] + [] == [N.Text("d")];
    assert ContentLevel(ts, 10, 1) == Done(Advance([N.Text("d")], 11));
    assert RootLevel(ts, 8) == Done([N.Content([N.Text("d")])]);
    assert RootLevel(ts, 7) == Done([N.Content([N.Text("d")])]);
    assert RootLevel(ts, 6) == Done([N.Content([N.Text("d")])]);
    assert [N.Content([N.Text("a"), N.Text("b")])] + [N.Content([N.Text("d")])]
      == [N.Content([N.Text("a"), N.Text("b")]), N.Content([N.Text("d")])];
    RootContentSection(ts, 0);
  }

  /** A section nested two levels deep at its end: its call returns at the
      second of the three closing `Dedent`s (index 8), the first one that
      takes the counter from 2 to 1, and the root skips the third. */
  lemma ReturnsAtSecondDedent()
    ensures var ts := [Content, Indent, Text("a"), Indent, Text("b"), Indent, Text("c"), Dedent, Dedent, Dedent, Content, Indent, Text("d")];
      && ContentLevel(ts, 2, 1) == Done(Advance([N.Text("a"), N.Text("b"), N.Text("c")], 8))
      && Parse(ts) == Done(N.Document([N.Content([N.Text("a"), N.Text("b"), N.Text("c")]), N.Content([N.Text("d")])]))
  {
    var ts := [Content, Indent, Text("a"), Indent, Text("b"), Indent, Text("c"), Dedent, Dedent, Dedent, Content, Indent, Text("d")];
    CoalesceFixesWellCoalesced(ts);
    SecondDedentBody(ts);
    SecondDedentTree(ts);
  }

  lemma SecondDedentBody(ts: seq<Token>)
    requires ts == [Content, Indent, Text("a"), Indent, Text("b"), Indent, Text("c"), Dedent, Dedent, Dedent, Content, Indent, Text("d")]
    ensures ContentLevel(ts, 2, 1) == Done(Advance([N.Text("a"), N.Text("b"), N.Text("c")], 8))
  {
    assert ContentLevel(ts, 8, 2) == Done(Advance([], 8));
    assert ContentLevel(ts, 7, 3) == Done(Advance([], 8));
    assert [N.Text("c")] + [] == [N.Text("c")];
    assert ContentLevel(ts, 6, 3) == Done(Advance([N.Text("c")], 8));
    assert ContentLevel(ts, 5, 2) == Done(Advance([N.Text("c")], 8));
    assert [N.Text("b")] + [N.Text("c")] == [N.Text("b"), N.Text("c")];
    assert ContentLevel(ts, 4, 2) == Done(Advance([N.Text("b"), N.Text("c")], 8));
    assert ContentLevel(ts, 3, 1) == Done(Advance([N.Text("b"), N.Text("c")], 8));
    assert [N.Text("a")] + [N.Text("b"), N.Text("c")] == [N.Text("a"), N.Text("b"), N.Text("c")];
  }

  lemma SecondDedentTree(ts: seq<Token>)
    requires ts == [Content, Indent, Text("a"), Indent, Text("b"), Indent, Text("c"), Dedent, Dedent, Dedent, Content, Indent, Text("d")]
    requires ContentLevel(ts, 2, 1) == Done(Advance([N.Text("a"), N.Text("b"), N.Text("c")], 8))
    ensures RootLevel(ts, 0) == Done([N.Content([N.Text("a"), N.Text("b"), N.Text("c")]), N.Content([N.Text("d")])])
  {
    assert ContentLevel(ts, 13, 1) == Done(Advance([], 13));
    assert [N.Text("d")] + [] == [N.Text("d")];
    assert ContentLevel(ts, 12, 1) == Done(Advance([N.Text("d")], 13));
    assert RootLevel(ts, 10) == Done([N.Content([N.Text("d")])]);
    assert RootLevel(ts, 9) == Done([N.Content([N.Text("d")])]);
    assert [N.Content([N.Text("a"), N.Text("b"), N.Text("c")])] + [N.Content([N.Text("d")])]
      == [N.Content([N.Text("a"), N.Text("b"), N.Text("c")]), N.Content([N.Text("d")])];
    RootContentSection(ts, 0);
  }

  /** `Content, Indent, Paragraph, Indent, a, Dedent, Dedent, Content,
      Indent, b`: the paragraph's body call takes the first `Dedent` (its
      own counter 2 to 1), so the section's counter never reaches 2. The
      second `Dedent` takes the section's counter from 1 to 0, and the
      second `Content` is then read inside content, where it is not
      allowed. */
  lemma BlockEndThenContentPanics()
    ensures Parse([Content, Indent, Paragraph, Indent, Text("a"), Dedent, Dedent, Content, Indent, Text("b")]) == Panic
  {
    var ts := [Content, Indent, Paragraph, Indent, Text("a"), Dedent, Dedent, Content, Indent, Text("b")];
    CoalesceFixesWellCoalesced(ts);
    BlockEndThenContentTree(ts);
  }

  lemma BlockEndThenContentTree(ts: seq<Token>)
    requires ts == [Content, Indent, Paragraph, Indent, Text("a"), Dedent, Dedent, Content, Indent, Text("b")]
    ensures RootLevel(ts, 0) == Panic
  {
    assert ContentLevel(ts, 5, 2) == Done(Advance([], 5));
    assert ContentLevel(ts, 4, 2) == Done(Advance([N.Text("a")] + [], 5));
    assert ContentLevel(ts, 3, 1) == ContentLevel(ts, 4, 2);
    assert ContentLevel(ts, 7, 0) == Panic;
    assert ContentLevel(ts, 6, 1) == Panic;
    assert Block(ts, 2, 1) == Panic;
    assert ContentLevel(ts, 2, 1) == Panic;
  }

  /** `Content, Indent, Paragraph, Indent, a, Dedent, b`: the lines come
      back from the paragraph's body to a direct child of the section, but
      that `Dedent` belongs to the paragraph's call; the section goes on
      and holds both the paragraph and `b`. */
  lemma BlockBodyDedentKeepsSection()
    ensures Parse([Content, Indent, Paragraph, Indent, Text("a"), Dedent, Text("b")])
      == Done(N.Document([N.Content([N.Paragraph([N.Text("a")]), N.Text("b")])]))
  {
    var ts := [Content, Indent, Paragraph, Indent, Text("a"), Dedent, Text("b")];
    CoalesceFixesWellCoalesced(ts);
    BlockBodyDedentTree(ts);
  }

  lemma BlockBodyDedentTree(ts: seq<Token>)
    requires ts == [Content, Indent, Paragraph, Indent, Text("a"), Dedent, Text("b")]
    ensures RootLevel(ts, 0) == Done([N.Content([N.Paragraph([N.Text("a")]), N.Text("b")])])
  {
    assert ContentLevel(ts, 5, 2) == Done(Advance([], 5));
    assert [N.Text("a")] + [] == [N.Text("a")];
    assert ContentLevel(ts, 4, 2) == Done(Advance([N.Text("a")], 5));
    assert ContentLevel(ts, 3, 1) == Done(Advance([N.Text("a")], 5));
    assert ContentLevel(ts, 7, 1) == Done(Advance([], 7));
    assert [N.Text("b")] + [] == [N.Text("b")];
    assert ContentLevel(ts, 6, 1) == Done(Advance([N.Text("b")], 7));
    assert [N.Paragraph([N.Text("a")])] + [N.Text("b")] == [N.Paragraph([N.Text("a")]), N.Text("b")];
    assert Block(ts, 2, 1) == Done(Advance([N.Paragraph([N.Text("a")]), N.Text("b")], 7));
    assert ContentLevel(ts, 2, 1) == Done(Advance([N.Paragraph([N.Text("a")]), N.Text("b")], 7));
    RootContentSection(ts, 0);
  }
}
