/** The `KML` wrapper of src/lib.rs: lexing and parsing composed, and the
    HTML of the parsed document. The input text is given as its lines. */
module Library {
  import opened Lexer
  import P = Parser
  import N = Nodes
  import H = Html

  /** A successfully parsed document. */
  datatype Kml = Kml(document: N.Node)

  /** `KML::new`: the document of the lexed and parsed lines; it fails
      exactly when parsing does. A loaded document is a `Document` that
      ends with a content section. */
  method New(lines: seq<string>) returns (r: P.Outcome<Kml>)
    ensures r.Done? <==> P.Parse(LexAll(lines).tokens).Done?
    ensures r.Done? ==> r.value.document == P.Parse(LexAll(lines).tokens).value
    ensures r.Done? ==> var d := r.value.document;
      d.Document? && d.nodes != [] && d.nodes[|d.nodes| - 1].Content?
  {
    var tokens := Lex(lines);
    var parsed := P.ParseTokens(tokens);
    match parsed {
      case Panic =>
        r := P.Panic;
      case Done(document) =>
        P.ParsedDocument(tokens);
        r := P.Done(Kml(document));
    }
  }

  /** `KML::to_html`: the HTML of the loaded document, which opens the
      document wrapper and closes the final content section and then the
      document. */
  method ToHtml(kml: Kml) returns (html: string)
    ensures html == H.Render(kml.document)
    ensures kml.document.Document? && kml.document.nodes != [] && kml.document.nodes[|kml.document.nodes| - 1].Content? ==>
      |html| >= 31 && html[..19] == "<div id='document'>" && html[|html| - 12..] == "</div></div>"
  {
    html := H.ToHtml(kml.document);
    if kml.document.Document? && kml.document.nodes != [] && kml.document.nodes[|kml.document.nodes| - 1].Content? {
      H.DocumentEndingWithContent(kml.document.nodes);
    }
  }

  /** A source holding only a title section does not load: the lexer gives
      `Title, Indent, Text("Hello")` and the parser runs past the last
      token looking for a content section. */
  lemma TitleOnlySourceFails()
    ensures P.Parse(LexAll(["title:", "    Hello"]).tokens) == P.Panic
  {
    LexTitleSection();
    P.TitleWithoutContentPanics();
  }

  /** The source `content:`, `    a`, `        b`, `content:`, `    c` loads
      with both sections: of the two `Dedent`s before the second `content:`,
      the first returns from the nested level and the root skips the
      second. */
  lemma NestedEndSourceLoads()
    ensures P.Parse(LexAll(["content:", "    a", "        b", "content:", "    c"]).tokens)
      == P.Done(N.Document([N.Content([N.Text("a"), N.Text("b")]), N.Content([N.Text("c")])]))
  {
    LexNestedEnd();
    P.NestedEndThenContent();
  }

  /** The source `content:`, `    a`, `        b`, `    c` does not load:
      the section's call returns at the `Dedent` before `c` (its own
      counter 2 to 1), `c` is skipped at the root, and the root then reads
      past the last token. */
  lemma ChildEndSourceFails()
    ensures P.Parse(LexAll(["content:", "    a", "        b", "    c"]).tokens) == P.Panic
  {
    LexChildEnd();
    P.ChildEndPanics();
  }

  /** The same source followed by a second content section loads, but the
      line `c` is in neither section. */
  lemma ChildEndSourceDropsLine()
    ensures P.Parse(LexAll(["content:", "    a", "        b", "    c", "content:", "    d"]).tokens)
      == P.Done(N.Document([N.Content([N.Text("a"), N.Text("b")]), N.Content([N.Text("d")])]))
  {
    LexChildEndThenContent();
    P.MidSectionReturnDropsText();
  }

  /** The source `content:`, `    p:`, `        a`, `content:`, `    b` does
      not load: the first closing `Dedent` ends the paragraph's body, the
      second takes the section's counter from 1 to 0, and the second
      `content:` is then read inside content. */
  lemma BlockEndSourceFails()
    ensures P.Parse(LexAll(["content:", "    p:", "        a", "content:", "    b"]).tokens) == P.Panic
  {
    LexBlockEnd();
    P.BlockEndThenContentPanics();
  }
}
