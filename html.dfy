/** The HTML serialiser of src/conversion/html.rs. The `&mut String`
    buffer is a string threaded through each procedure: what comes back is
    the buffer it was given followed by the node's HTML. */
module Html {
  import opened Nodes

  /** The HTML `recurse` writes for a top-level node. */
  function Render(n: Node): string
    decreases n
  {
    match n
    case Document(ns) => "<div id='document'>" + RenderAll(ns) + "</div>"
    case Title(t) => "<h1 id='title'>" + t + "</h1>"
    case Date(d) => "<h2 id='date'>" + d + "</h2>"
    case Description(d) => "<p id='description'>" + d + "</p>"
    case Content(cs) => "<div id='content'>" + RenderContents(cs) + "</div>"
  }

  /** The HTML of the nodes, one after the other. */
  function RenderAll(ns: seq<Node>): string
    decreases ns
  {
    if ns == [] then "" else RenderAll(ns[..|ns| - 1]) + Render(ns[|ns| - 1])
  }

  /** The HTML `recurse_content_node` writes for a content node. Text is
      copied as it is, with no escaping. */
  function RenderContent(c: ContentNode): string
    decreases c
  {
    match c
    case Paragraph(cs) => "<p id='paragraph'>" + RenderContents(cs) + "</p>"
    case Link(url, cs) => "<a href='" + url + "'>" + RenderContents(cs) + "</a>"
    case Image(url, caption) =>
      "<figure>" + "<img src='" + url + "'>" + "<figcaption>" + caption + "</figcaption>" + "</figure>"
    case Text(t) => t
  }

  function RenderContents(cs: seq<ContentNode>): string
    decreases cs
  {
    if cs == [] then "" else RenderContents(cs[..|cs| - 1]) + RenderContent(cs[|cs| - 1])
  }

  /** Rendering a list is rendering its parts and concatenating. */
  lemma {:induction false} RenderAllAppend(a: seq<Node>, b: seq<Node>)
    ensures RenderAll(a + b) == RenderAll(a) + RenderAll(b)
    decreases |b|
  {
    if b == [] {
      assert a + b == a;
    } else {
      assert (a + b)[..|a + b| - 1] == a + b[..|b| - 1];
      RenderAllAppend(a, b[..|b| - 1]);
    }
  }

  lemma {:induction false} RenderContentsAppend(a: seq<ContentNode>, b: seq<ContentNode>)
    ensures RenderContents(a + b) == RenderContents(a) + RenderContents(b)
    decreases |b|
  {
    if b == [] {
      assert a + b == a;
    } else {
      assert (a + b)[..|a + b| - 1] == a + b[..|b| - 1];
      RenderContentsAppend(a, b[..|b| - 1]);
    }
  }

  /** A list of text nodes renders as its strings, verbatim and with no
      separator. */
  lemma {:induction false} TextVerbatim(cs: seq<ContentNode>)
    requires AllText(cs)
    ensures RenderContents(cs) == PlainText(cs)
    decreases |cs|
  {
    if cs != [] {
      TextVerbatim(cs[..|cs| - 1]);
    }
  }

  /** The HTML of a document whose last node is a content section opens
      the document wrapper and ends by closing the content section and
      then the document. */
  lemma DocumentEndingWithContent(ns: seq<Node>)
    requires ns != [] && ns[|ns| - 1].Content?
    ensures var h := Render(Document(ns));
      && |h| >= 19 + 12
      && h[..19] == "<div id='document'>"
      && h[|h| - 12..] == "</div></div>"
  {
    var last := ns[|ns| - 1];
    var inner := RenderContents(last.children);
    var middle := RenderAll(ns[..|ns| - 1]) + "<div id='content'>" + inner;
    assert RenderAll(ns) == middle + "</div>";
    assert Render(Document(ns)) == "<div id='document'>" + middle + "</div></div>";
    Framed("<div id='document'>", middle, "</div></div>");
  }

  /** A string made of an opening part, a middle and a closing part
      starts with the opening part and ends with the closing part. */
  lemma Framed(open: string, middle: string, close: string)
    ensures var h := open + middle + close;
      && h[..|open|] == open
      && h[|h| - |close|..] == close
  {
  }

  /** `recurse_content_node`: appends the node's HTML to the buffer and
      leaves what was already there unchanged. */
  method RecurseContentNode(node: ContentNode, html: string) returns (out: string)
    decreases node
    ensures out == html + RenderContent(node)
  {
    match node {
      case Paragraph(p) =>
        out := html + "<p id='paragraph'>";
        out := RecurseContentNodes(p, out);
        out := out + "</p>";
      case Link(url, nodes) =>
        out := html + "<a href='";
        out := out + url;
        out := out + "'>";
        out := RecurseContentNodes(nodes, out);
        out := out + "</a>";
      case Image(url, caption) =>
        out := html + "<figure>";
        out := out + "<img src='";
        out := out + url;
        out := out + "'>";
        out := out + "<figcaption>";
        out := out + caption;
        out := out + "</figcaption>";
        out := out + "</figure>";
      case Text(text) =>
        out := html + text;
    }
  }

  /** The `for` loop over a list of content nodes. */
  method RecurseContentNodes(nodes: seq<ContentNode>, html: string) returns (out: string)
    decreases nodes
    ensures out == html + RenderContents(nodes)
  {
    out := html;
    for i := 0 to |nodes|
      invariant out == html + RenderContents(nodes[..i])
    {
      assert nodes[..i + 1][..i] == nodes[..i];
      out := RecurseContentNode(nodes[i], out);
    }
    assert nodes[..|nodes|] == nodes;
  }

  /** `recurse`: appends the node's HTML to the buffer and leaves what was
      already there unchanged. */
  method Recurse(node: Node, html: string) returns (out: string)
    decreases node
    ensures out == html + Render(node)
  {
    match node {
      case Document(nodes) =>
        out := html + "<div id='document'>";
        out := RecurseNodes(nodes, out);
        out := out + "</div>";
      case Title(title) =>
        out := html + "<h1 id='title'>";
        out := out + title;
        out := out + "</h1>";
      case Date(date) =>
        out := html + "<h2 id='date'>";
        out := out + date;
        out := out + "</h2>";
      case Description(description) =>
        out := html + "<p id='description'>";
        out := out + description;
        out := out + "</p>";
      case Content(nodes) =>
        out := html + "<div id='content'>";
        out := RecurseContentNodes(nodes, out);
        out := out + "</div>";
    }
  }

  /** The `for` loop over a document's nodes. */
  method RecurseNodes(nodes: seq<Node>, html: string) returns (out: string)
    decreases nodes
    ensures out == html + RenderAll(nodes)
  {
    out := html;
    for i := 0 to |nodes|
      invariant out == html + RenderAll(nodes[..i])
    {
      assert nodes[..i + 1][..i] == nodes[..i];
      out := Recurse(nodes[i], out);
    }
    assert nodes[..|nodes|] == nodes;
  }

  /** `to_html`: the document's HTML, written into a fresh buffer. */
  method ToHtml(document: Node) returns (html: string)
    ensures html == Render(document)
  {
    html := Recurse(document, "");
  }
}
