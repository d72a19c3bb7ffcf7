/** The Markdown serialiser of src/conversion/markdown.rs, with the same
    buffer threading as the HTML one. */
module Markdown {
  import opened Nodes
  import H = Html

  /** The Markdown `recurse` writes for a top-level node. */
  function Render(n: Node): string
    decreases n
  {
    match n
    case Document(ns) => RenderAll(ns)
    case Title(t) => "# " + t + " #"
    case Date(d) => "## " + d + " ##"
    case Description(d) => "### " + d + " ###"
    case Content(cs) => RenderContents(cs)
  }

  /** The Markdown of a document's nodes: each one followed by a newline. */
  function RenderAll(ns: seq<Node>): string
    decreases ns
  {
    if ns == [] then "" else RenderAll(ns[..|ns| - 1]) + Render(ns[|ns| - 1]) + "\n"
  }

  /** The Markdown `recurse_content_node` writes for a content node. An
      image becomes a one-column table holding the picture and its
      italicised caption. */
  function RenderContent(c: ContentNode): string
    decreases c
  {
    match c
    case Paragraph(cs) => RenderContents(cs) + "\n\n"
    case Link(url, cs) => "[" + RenderContents(cs) + "](" + url + ")"
    case Image(url, caption) =>
      "| ![](" + url + ") |" + "\n" + "|:--:|" + "\n" + "| *" + caption + "* |" + "\n"
    case Text(t) => t
  }

  function RenderContents(cs: seq<ContentNode>): string
    decreases cs
  {
    if cs == [] then "" else RenderContents(cs[..|cs| - 1]) + RenderContent(cs[|cs| - 1])
  }

  lemma {:induction false} RenderAllAppend(a: seq<Node>, b: seq<Node>)
    ensures RenderAll(a + b) == RenderAll(a) + RenderAll(b)
    decreases |b|
  {
    if b == [] {
      assert a + b == a;
    } else {
      assert (a + b)[..|a + b| - 1] == a + b[..|b| - 1];
      RenderAllAppend(a, b[..|b| - 1]);
    }
  }

  lemma {:induction false} RenderContentsAppend(a: seq<ContentNode>, b: seq<ContentNode>)
    ensures RenderContents(a + b) == RenderContents(a) + RenderContents(b)
    decreases |b|
  {
    if b == [] {
      assert a + b == a;
    } else {
      assert (a + b)[..|a + b| - 1] == a + b[..|b| - 1];
      RenderContentsAppend(a, b[..|b| - 1]);
    }
  }

  /** With no wrapper around a document or a content section, splitting
      either one splits its Markdown: an empty one renders as nothing. */
  lemma DocumentAndContentSplit(a: seq<Node>, b: seq<Node>, c: seq<ContentNode>, d: seq<ContentNode>)
    ensures Render(Document(a + b)) == Render(Document(a)) + Render(Document(b))
    ensures Render(Content(c + d)) == Render(Content(c)) + Render(Content(d))
    ensures Render(Document([])) == "" && Render(Content([])) == ""
  {
    RenderAllAppend(a, b);
    RenderContentsAppend(c, d);
  }

  /** A document's Markdown has one newline-terminated block per node. */
  lemma {:induction false} DocumentBlocks(ns: seq<Node>)
    ensures |Render(Document(ns))| >= |ns|
    ensures ns != [] ==> Render(Document(ns))[|Render(Document(ns))| - 1] == '\n'
    decreases |ns|
  {
    if ns != [] {
      DocumentBlocks(ns[..|ns| - 1]);
    }
  }

  /** A list of text nodes renders as its strings, verbatim and with no
      separator. */
  lemma {:induction false} TextVerbatim(cs: seq<ContentNode>)
    requires AllText(cs)
    ensures RenderContents(cs) == PlainText(cs)
    decreases |cs|
  {
    if cs != [] {
      TextVerbatim(cs[..|cs| - 1]);
    }
  }

  /** On text alone the two serialisers agree: neither escapes nor
      separates text. */
  lemma TextAgreesWithHtml(cs: seq<ContentNode>)
    requires AllText(cs)
    ensures RenderContents(cs) == H.RenderContents(cs) == PlainText(cs)
  {
    TextVerbatim(cs);
    H.TextVerbatim(cs);
  }

  /** `recurse_content_node`: appends the node's Markdown to the buffer and
      leaves what was already there unchanged. */
  method RecurseContentNode(node: ContentNode, markdown: string) returns (out: string)
    decreases node
    ensures out == markdown + RenderContent(node)
  {
    match node {
      case Paragraph(p) =>
        out := RecurseContentNodes(p, markdown);
        out := out + "\n\n";
      case Link(url, nodes) =>
        out := markdown + "[";
        out := RecurseContentNodes(nodes, out);
        out := out + "](";
        out := out + url;
        out := out + ")";
      case Image(url, caption) =>
        out := markdown + "| ![](";
        out := out + url;
        out := out + ") |";
        out := out + "\n";
        out := out + "|:--:|";
        out := out + "\n";
        out := out + "| *";
        out := out + caption;
        out := out + "* |";
        out := out + "\n";
      case Text(text) =>
        out := markdown + text;
    }
  }

  /** The `for` loop over a list of content nodes. */
  method RecurseContentNodes(nodes: seq<ContentNode>, markdown: string) returns (out: string)
    decreases nodes
    ensures out == markdown + RenderContents(nodes)
  {
    out := markdown;
    for i := 0 to |nodes|
      invariant out == markdown + RenderContents(nodes[..i])
    {
      assert nodes[..i + 1][..i] == nodes[..i];
      out := RecurseContentNode(nodes[i], out);
    }
    assert nodes[..|nodes|] == nodes;
  }

  /** `recurse`: appends the node's Markdown to the buffer and leaves what
      was already there unchanged. */
  method Recurse(node: Node, markdown: string) returns (out: string)
    decreases node
    ensures out == markdown + Render(node)
  {
    match node {
      case Document(nodes) =>
        out := markdown;
        for i := 0 to |nodes|
          invariant out == markdown + RenderAll(nodes[..i])
        {
          assert nodes[..i + 1][..i] == nodes[..i];
          out := Recurse(nodes[i], out);
          out := out + "\n";
        }
        assert nodes[..|nodes|] == nodes;
      case Title(title) =>
        out := markdown + "# ";
        out := out + title;
        out := out + " #";
      case Date(date) =>
        out := markdown + "## ";
        out := out + date;
        out := out + " ##";
      case Description(description) =>
        out := markdown + "### ";
        out := out + description;
        out := out + " ###";
      case Content(nodes) =>
        out := RecurseContentNodes(nodes, markdown);
    }
  }

  /** `to_markdown`: the document's Markdown, written into a fresh buffer. */
  method ToMarkdown(document: Node) returns (markdown: string)
    ensures markdown == Render(document)
  {
    markdown := Recurse(document, "");
  }
}
