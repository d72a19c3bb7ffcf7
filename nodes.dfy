/** The document tree of src/nodes.rs. */
module Nodes {

  /** A top-level node; `Document` is the root and owns everything below. */
  datatype Node =
    | Document(nodes: seq<Node>)
    | Title(text: string)
    | Date(text: string)
    | Description(text: string)
    | Content(children: seq<ContentNode>)

  /** A node inside a `Content` section. An image's caption is a plain
      string, not a list of nodes. */
  datatype ContentNode =
    | Paragraph(children: seq<ContentNode>)
    | Link(url: string, children: seq<ContentNode>)
    | Image(url: string, caption: string)
    | Text(text: string)

  predicate AllText(cs: seq<ContentNode>)
  {
    forall i :: 0 <= i < |cs| ==> cs[i].Text?
  }

  /** The strings of a list of text nodes, concatenated in order. */
  function PlainText(cs: seq<ContentNode>): string
    requires AllText(cs)
  {
    if cs == [] then [] else PlainText(cs[..|cs| - 1]) + cs[|cs| - 1].text
  }
}
