# KML in Dafny

KML is a small indentation-based markup language. A KML source has top-level
sections (`title:`, `date:`, `description:`, `content:`). Each section has an
indented body. A content section holds text, paragraphs (`p:`), links
(`link:url`) and images (`image:url`) with their captions. The Rust library
turns a source into a document tree in three stages and then writes that tree
out as HTML or Markdown:

- `lex` classifies every non-blank line and turns changes in leading-whitespace width
  into `Indent`/`Dedent` tokens, using a stack of widths.
- `parse` first joins consecutive text tokens. It then builds the tree with
  two recursive procedures that move an index through the tokens.
- `to_html` and `to_markdown` walk the tree and append to one string buffer.

This project models these stages:

| file | module | models |
|---|---|---|
| `strings.dfy` | `Strings` | whitespace, `trim`, the width of a line's leading whitespace |
| `lexer.dfy` | `Lexer` | `Token`, `tokenize_line`, `lex` |
| `nodes.dfy` | `Nodes` | `Node`, `ContentNode` |
| `parser.dfy` | `Parser` | `concatenate_consecutive_text_tokens`, `recurse_root_level`, `recurse_content_level`, `parse` |
| `html.dfy` | `Html` | `to_html` with its `recurse` and `recurse_content_node` |
| `markdown.dfy` | `Markdown` | `to_markdown` with its `recurse` and `recurse_content_node` |
| `library.dfy` | `Library` | `KML::new` and `KML::to_html` |

Each procedure that changes state is a `method` that mirrors the Rust. Each
such method is proved equal to a specification function:

- `Lex` (a `for` loop that keeps the token list and the width stack) is
  proved equal to `LexAll`, one `LineStep` per line.
- `ConcatenateConsecutiveTextTokens` (a loop with a text buffer) is proved
  equal to `Coalesce`.
- `RecurseRootLevel` and `RecurseContentLevel` are proved equal to
  `RootLevel` and `ContentLevel`. Their `&mut Vec` accumulator is an input
  sequence; the result is that sequence plus the nodes the call adds.
- The serialisers take their `&mut String` as an input string and return
  that string followed by `Render` of the node. The prefix they were given
  is therefore untouched.

The lemmas are stated about the specification functions.

Every way the parser can abort is one outcome, `Panic`:
- a failed `assert!`;
- a `panic!`;
- an out-of-bounds `tokens[index]`;
- the `usize` underflow of the content-level counter.

`parse` itself never returns its `Err` variant.

### Behaviour a reader might not expect

The model follows the code in each case:

- **Balance.** One might expect every `Indent` to be closed by a `Dedent`
  by the end of the input. The lexer adds no closing `Dedent`s at the end,
  so the token list is balanced only when the width stack ends empty
  (`Lexer.LexAllInvariant`).
- **Title only.** One might expect `title:` followed by an indented `Hello`
  to give a document with a title. It lexes to
  `[Title, Indent, Text("Hello")]`, but after the title the root procedure
  is called one past the last token and fails on the out-of-bounds read. A
  document parses only if it ends inside a content section
  (`Parser.TitleWithoutContentPanics`, `Library.TitleOnlySourceFails`,
  `Parser.ParsedDocument`).
- **End of a content section.** One might expect a content section to hold
  every line indented under it, up to the `Dedent` that closes it. The
  code does not collect a section that way:
  - The section's content-level call starts with its own counter at 1.
    Each `Indent` it reads raises that counter and each `Dedent` it reads
    lowers it. The call returns at the first `Dedent` it reads that takes
    its counter from 2 to 1 (src/parser.rs:106-118;
    `Parser.ContentLevelDepth`, `Parser.ContentSectionStaysOpen`).
  - The `Indent` and `Dedent`s under a `p:`, `link:` or `image:` line are
    not read by the section's call. That block's own call reads them,
    starting with its own counter at 1, and returns at its own `Dedent`
    from 2 to 1 (src/parser.rs:120-143). Coming back from a block's body to
    a direct child of the section therefore leaves the section open
    (`Parser.BlockBodyDedentKeepsSection`).
  - For untagged deeper lines (text indented under text), the section's
    call returns the first time the lines come back from such a line to a
    direct child of the section, wherever in the section it happens. With
    deeper nesting it is not the first closing `Dedent`
    (`Parser.ReturnsAtSecondDedent`).
  - After such a return, the root procedure reads the rest of the section
    (src/parser.rs:76-86; `Parser.RootSkipsOtherTokens`). It skips text,
    paragraphs, links, images, `Indent` and `Dedent`, so their content is
    dropped. A title, date, description or content tag starts a new
    section (`Parser.MidSectionReturnDropsText`,
    `Library.ChildEndSourceDropsLine`). If no tag follows, the root reads
    past the last token and the parse fails (`Parser.ChildEndPanics`,
    `Library.ChildEndSourceFails`).
  - A section with no untagged deeper lines never returns. Its closing
    `Dedent` takes the section's counter from 1 to 0, and a later root tag
    fails inside content (src/parser.rs:146-148;
    `Parser.ContentThenTitlePanics`).
  - This includes a section that ends with an indented block body, such as
    `content:`, `    p:`, `        a`, `content:`, `    b`. The first
    closing `Dedent` ends the paragraph's call. The second takes the
    section's counter from 1 to 0, and the second `content:` then fails
    inside content (`Lexer.LexBlockEnd`,
    `Parser.BlockEndThenContentPanics`, `Library.BlockEndSourceFails`).
  - A section whose only untagged deeper lines come at its very end returns
    at one of the `Dedent`s that close it. The root skips the others and
    reads the next section (`Parser.NestedEndThenContent`,
    `Library.NestedEndSourceLoads`, `Parser.ReturnsAtSecondDedent`).
- **Blank input.** One might expect a source of blank lines to give an
  empty document. It lexes to no tokens, and parsing fails at the first
  token read (src/parser.rs:19; `Lexer.LexBlankLines`,
  `Parser.EmptyTokensPanic`).
- **Image bodies.** One might expect an image's body to be its caption
  alone. The body need not be a single text run: its first node must be
  text and becomes the caption, and the rest of the body is dropped
  (`Parser.ImageCaptionIsFirstText`, `Parser.ImageDropsRestOfBody`).
- **Errors.** One might expect distinct errors for distinct failures.
  There is no error taxonomy: every failure is the single `Panic` outcome.

## Model

| member | source | states |
|---|---|---|
| Strings.Width | src/lexer.rs:27 | the leading-whitespace count: every counted character is whitespace and the next one, if any, is not |
| Strings.Trim | src/lexer.rs:45 | the trimmed line neither starts nor ends with whitespace and is the slice of the line between its leading and trailing whitespace |
| Strings.BlankIffAllSpace | src/lexer.rs:22 | a line trims to empty exactly when all its characters are whitespace |
| Strings.TrimTrimmed | src/lexer.rs:91 | trimming an already trimmed string changes nothing |
| Lexer.TokenizeLine | src/lexer.rs:82-92 | classification is total, never yields `Indent`/`Dedent`, and every text, link or image payload it yields is trimmed |
| Lexer.TokenizeLineOf | src/lexer.rs:82-92 | every token a trimmed line can yield is read back from its canonical line (keywords, `link:`/`image:` plus payload, text); a column-0 line is classified untrimmed and can also yield text such as `"title:"` (see `Lexer.TrailingSpaceDefeatsKeyword`) |
| Lexer.TokenizeTrimmedLine | src/lexer.rs:82-92 | a trimmed line is classified into such a token, so classifying its canonical line again gives the same token |
| Lexer.TrailingSpaceDefeatsKeyword | src/lexer.rs:30-38 | a column-0 line is classified untrimmed, so `"title: "` is `Text("title:")` and not a title tag |
| Lexer.WordIsText | src/lexer.rs:82-92 | a non-empty word with no whitespace and no colon is classified as text holding the word itself |
| Lexer.DedentCount | src/lexer.rs:52-60 | the reverse scan counts exactly the top stack entries greater than the width and stops at the first entry that is not |
| Lexer.CountDedents | src/lexer.rs:52-60 | the `for`/`break` scan over the reversed stack returns that count, at most the stack height |
| Lexer.LineStep | src/lexer.rs:20-76 | a blank line adds nothing and keeps the stack; any other line adds exactly one non-structural token, `tokenize_line` of the line (untrimmed at column 0), after only `Indent`/`Dedent` tokens |
| Lexer.LineStepShape | src/lexer.rs:30-75 | column 0: one `Dedent` per stack entry, then an empty stack; wider than the top (0 when empty): one `Indent`, and the width is pushed; as wide as the top: no structural token and the same stack |
| Lexer.LineStepDedent | src/lexer.rs:51-71 | a narrower line pops exactly the entries wider than itself, one `Dedent` each, keeps the prefix (all no wider than the line) and emits no `Indent` |
| Lexer.LineStepPreservesInvariant | src/lexer.rs:20-76 | each line keeps the stack positive and strictly increasing, and changes the depth (#Indent - #Dedent) by the change in stack height |
| Lexer.LexAllInvariant | src/lexer.rs:15-80 | after any lines the stack is valid, the output's depth equals the stack height and no prefix of the output has negative depth |
| Lexer.LexBlankLines | src/lexer.rs:20-24 | whitespace-only input yields no tokens and an empty stack |
| Lexer.LexTitleSection | src/lexer.rs:15-80 | `title:` then an indented `Hello` lexes to `Title, Indent, Text("Hello")`, left unbalanced at depth 1 |
| Lexer.LexNestedEnd | src/lexer.rs:15-80 | `content:`, `    a`, `        b`, `content:`, `    c` lex to `Content, Indent, Text("a"), Indent, Text("b"), Dedent, Dedent, Content, Indent, Text("c")`: the second `content:` closes both open widths |
| Lexer.LexChildEnd | src/lexer.rs:15-80 | `content:`, `    a`, `        b`, `    c` lex to `Content, Indent, Text("a"), Indent, Text("b"), Dedent, Text("c")` with the width 4 still open |
| Lexer.LexBlockEnd | src/lexer.rs:15-80 | `content:`, `    p:`, `        a`, `content:`, `    b` lex to `Content, Indent, Paragraph, Indent, Text("a"), Dedent, Dedent, Content, Indent, Text("b")` |
| Lexer.LexChildEndThenContent | src/lexer.rs:15-80 | those lines followed by `content:`, `    d` lex to the same tokens followed by `Dedent, Content, Indent, Text("d")` |
| Lexer.DedentBetweenLevels | src/lexer.rs:51-71 | a line at width 2 under a stack `[4]` emits one `Dedent` and its text, empties the stack and opens no new level |
| Lexer.LexLine | src/lexer.rs:20-76 | one iteration of the loop appends exactly the tokens `LineStep` emits and leaves the stack `LineStep` gives |
| Lexer.ClearLevels | src/lexer.rs:29-37 | the column-0 branch appends a `Dedent` per stored width and the untrimmed line's token, and empties the stack, exactly as `LineStep` describes |
| Lexer.CloseLevels | src/lexer.rs:51-71 | the narrower-line branch appends exactly the `Dedent`s and the token `LineStep` emits and truncates the stack as `LineStep` does |
| Lexer.PushDedents | src/lexer.rs:63-65 | the `Dedent`-pushing loops (also src/lexer.rs:33-35) append exactly `n` `Dedent`s and keep the tokens before them |
| Lexer.Lex | src/lexer.rs:15-80 | `lex` returns the tokens of `LexAll`, whose running depth never goes negative and whose depth equals the final stack height |
| Parser.ConcatenateConsecutiveTextTokens | src/parser.rs:163-196 | the loop with its text buffer returns `Coalesce` of the input, which has no adjacent text tokens and no empty text token, and has the input's non-text tokens in the same order |
| Parser.CoalesceFromWellCoalesced | src/parser.rs:167-193 | whatever the buffer holds, the output never has two adjacent text tokens nor an empty text token |
| Parser.CoalesceFromKeepsNonText | src/parser.rs:178-186 | every non-text token is kept, in the same order and number |
| Parser.CoalesceTextRun | src/parser.rs:170-175 | with a non-empty buffer, a run of text tokens only extends the buffer, space-separated |
| Parser.CoalesceMaximalRun | src/parser.rs:170-175 | a maximal run of text tokens whose first value is non-empty becomes one text token holding the values joined by single spaces |
| Parser.CoalesceSplit | src/parser.rs:176-186 | the pass works independently on the two sides of a non-text token |
| Parser.CoalesceFixesWellCoalesced | src/parser.rs:163-196 | a list without adjacent or empty text tokens is left unchanged |
| Parser.CoalesceIdempotent | src/parser.rs:163-196 | joining twice is joining once |
| Parser.ContentLevel | src/parser.rs:91-152 | a successful content-level call returns an index no smaller than where it started, and that index is past the end or holds a `Dedent` |
| Parser.Block | src/parser.rs:120-151 | a paragraph, link or image consumes at least its tag: its call returns past the tag, at the end or at a `Dedent` |
| Parser.RootLevel | src/parser.rs:16-87 | a successful root-level call yields a non-empty list that ends with a `Content` node |
| Parser.RecurseContentLevel | src/parser.rs:91-152 | it only appends to its accumulator, and what it appends and the index it returns are those of `ContentLevel` |
| Parser.RecurseBlock | src/parser.rs:120-151 | the paragraph, link and image arms only append to the accumulator, and what they append and the index they return are those of `Block` |
| Parser.RecurseRootLevel | src/parser.rs:16-87 | it only appends to its accumulator, and what it appends is `RootLevel`; it fails exactly when `RootLevel` does |
| Parser.ParseTokens | src/parser.rs:6-156 | `parse` is joining text tokens, then root-level building from index 0, wrapped in `Document` |
| Parser.ContentLevelDepth | src/parser.rs:106-118 | when a call started at level `l` returns inside the tokens, the tokens it consumed through the returned `Dedent` have depth `1 - l` |
| Parser.BlockResumes | src/parser.rs:120-151 | a successful paragraph, link or image has a successful body, and the call then returns what the current level returns one past the body's index |
| Parser.ContentSectionStaysOpen | src/parser.rs:56-83 | when a content section's call returns inside the tokens, it stops at a `Dedent` with the section's own `Indent` still open |
| Parser.ContentLevelFilled | src/parser.rs:102-144 | without empty text tokens, content-level building makes no empty text node and no empty caption |
| Parser.BlockFilled | src/parser.rs:120-144 | the same for the node a paragraph, link or image call pushes and for everything the call appends after it |
| Parser.RootLevelFilled | src/parser.rs:16-87 | without empty text tokens, every title, date, description and content node is filled |
| Parser.ContentSectionFilled | src/parser.rs:56-74 | the same for a root content section |
| Parser.ParsedDocument | src/parser.rs:6-156 | a parsed document is a `Document` with a non-empty node list that ends with a content section and has no empty text, caption or heading |
| Parser.RootLeafSection | src/parser.rs:22-54 | a title, date or description succeeds iff `Indent` and a text token follow and the rest succeeds; its leaf comes before everything the rest appends |
| Parser.RootContentSection | src/parser.rs:56-74 | a content section succeeds iff `Indent` follows, the content-level call from just after it at level 1 succeeds, and the root call one past its index (if inside the tokens) succeeds; the result is the section's node, holding that call's nodes, followed by the nodes of the resumed root call, in order |
| Parser.RootSkipsOtherTokens | src/parser.rs:76-86 | any other token at the root is skipped |
| Parser.ImageCaptionIsFirstText | src/parser.rs:132-144 | an image fails unless its body's first node is text, and otherwise becomes `Image(url, that text)` |
| Parser.RootTagInContentPanics | src/parser.rs:146-148 | a title, date, description or content tag inside content fails |
| Parser.EmptyTokensPanic | src/parser.rs:19 | an empty token list fails |
| Parser.TitleWithoutContentPanics | src/parser.rs:82-86 | `Title, Indent, Text("Hello")` fails: after the title the root call reads past the last token |
| Parser.ParagraphLinesJoined | src/parser.rs:120-125 | two text lines in a paragraph give one text node `"a b"` |
| Parser.ParagraphTextsCoalesced | src/parser.rs:170-175 | the two text tokens are joined before tree building |
| Parser.ImageCaptionExample | src/parser.rs:132-137 | `image:` with an indented text gives `Image(url, text)` |
| Parser.ImageDropsRestOfBody | src/parser.rs:136-137 | an image keeps only its first body node as caption and drops a following paragraph |
| Parser.ImageWithoutCaptionPanics | src/parser.rs:138-143 | an image whose body starts with a paragraph fails |
| Parser.TitleThenContent | src/parser.rs:16-87 | a title section followed by a content section gives both nodes in order, skipping the `Dedent` between them |
| Parser.NestedEndThenContent | src/parser.rs:106-118 | for `Content, Indent, a, Indent, b, Dedent, Dedent, Content, Indent, c`, the section's call returns at the first `Dedent` (counter 2 to 1), the root skips the second, and the result is `Document([Content([a, b]), Content([c])])` |
| Parser.ChildEndPanics | src/parser.rs:76-86 | for `Content, Indent, a, Indent, b, Dedent, c`, the call returns at the `Dedent`, the root skips `c` and then reads past the last token, so the parse fails |
| Parser.MidSectionReturnDropsText | src/parser.rs:76-86 | for those tokens followed by `Dedent, Content, Indent, d`, the result is `Document([Content([a, b]), Content([d])])`: `c` is dropped and the later section is appended |
| Parser.BlockEndThenContentPanics | src/parser.rs:111-148 | for `Content, Indent, Paragraph, Indent, a, Dedent, Dedent, Content, Indent, b`, the paragraph's call takes the first `Dedent`, the second takes the section's counter from 1 to 0, and the second `Content` makes the parse fail |
| Parser.BlockBodyDedentKeepsSection | src/parser.rs:111-125 | for `Content, Indent, Paragraph, Indent, a, Dedent, b`, the `Dedent` ends only the paragraph's call and the result is `Document([Content([Paragraph([a]), b])])` |
| Parser.ReturnsAtSecondDedent | src/parser.rs:111-118 | for a section ending two levels deep, the call returns at the second of the three closing `Dedent`s, with `[a, b, c]`, and the next section is appended after it |
| Parser.ContentThenTitlePanics | src/parser.rs:111-118 | for `Content, Indent, a, Dedent, Title, Indent, b`, the `Dedent` takes the counter from 1 to 0 without returning, so the title is read inside content and the parse fails |
| Html.RecurseContentNode | src/conversion/html.rs:40-72 | appends the content node's HTML to the buffer and leaves the existing prefix unchanged |
| Html.RecurseContentNodes | src/conversion/html.rs:44-46 | the `for` loop appends the children's HTML in order |
| Html.Recurse | src/conversion/html.rs:6-38 | appends the node's HTML to the buffer and leaves the existing prefix unchanged |
| Html.RecurseNodes | src/conversion/html.rs:10-12 | the `for` loop appends the document nodes' HTML in order |
| Html.ToHtml | src/conversion/html.rs:3-76 | `to_html` returns `Render` of the document |
| Html.RenderAllAppend | src/conversion/html.rs:8-13 | the HTML of a concatenated node list is the concatenation of the lists' HTML |
| Html.RenderContentsAppend | src/conversion/html.rs:30-35 | the same for content-node lists |
| Html.TextVerbatim | src/conversion/html.rs:68-70 | text nodes are copied verbatim with no escaping or separator |
| Html.DocumentEndingWithContent | src/conversion/html.rs:8-36 | a document ending with a content section opens with `<div id='document'>` and ends with `</div></div>` |
| Markdown.RecurseContentNode | src/conversion/markdown.rs:37-75 | appends the content node's Markdown to the buffer and leaves the existing prefix unchanged |
| Markdown.RecurseContentNodes | src/conversion/markdown.rs:40-42 | the `for` loop appends the children's Markdown in order |
| Markdown.Recurse | src/conversion/markdown.rs:6-35 | appends the node's Markdown, each document node followed by a newline, and leaves the existing prefix unchanged |
| Markdown.ToMarkdown | src/conversion/markdown.rs:3-79 | `to_markdown` returns `Render` of the document |
| Markdown.RenderAllAppend | src/conversion/markdown.rs:8-13 | the Markdown of a concatenated node list is the concatenation |
| Markdown.RenderContentsAppend | src/conversion/markdown.rs:29-33 | the same for content-node lists |
| Markdown.DocumentAndContentSplit | src/conversion/markdown.rs:8-33 | documents and content sections have no wrapper: splitting one splits its Markdown, and an empty one renders as `""` |
| Markdown.DocumentBlocks | src/conversion/markdown.rs:8-13 | a document's Markdown is at least one character per node and ends with a newline when it has nodes |
| Markdown.TextVerbatim | src/conversion/markdown.rs:71-73 | text nodes are copied verbatim with no separator |
| Markdown.TextAgreesWithHtml | src/conversion/markdown.rs:71-73 | on text alone the Markdown and HTML serialisers produce the same string |
| Library.New | src/lib.rs:15-18 | `KML::new` succeeds exactly when parsing the lexed lines does, and its document is a `Document` ending with a content section |
| Library.ToHtml | src/lib.rs:20-22 | `KML::to_html` is the document's HTML, framed by the document wrapper and closed by the content section |
| Library.TitleOnlySourceFails | src/lib.rs:15-18 | a source with only a title section does not load |
| Library.NestedEndSourceLoads | src/lib.rs:15-18 | the source `content:`, `    a`, `        b`, `content:`, `    c` loads with both content sections, in order |
| Library.ChildEndSourceFails | src/lib.rs:15-18 | the source `content:`, `    a`, `        b`, `    c` does not load |
| Library.BlockEndSourceFails | src/lib.rs:15-18 | the source `content:`, `    p:`, `        a`, `content:`, `    b` does not load |
| Library.ChildEndSourceDropsLine | src/lib.rs:15-18 | that source followed by `content:`, `    d` loads as `Content([a, b])`, `Content([d])`: the line `c` is in neither section |

## Left out

- Lexer.Lex: stored widths are unbounded naturals. The Rust stores them as `u8` and truncates widths of 256 or more.
- Whitespace is the ASCII set (space, tab, line feed, vertical tab, form feed, carriage return). Unicode whitespace is not modelled.
- `str::lines()` is not modelled: the input is given as its sequence of lines, so its `\r\n` handling is not captured.
- Parser.RecurseContentLevel: the underflow of `indent_level` is a failure, as in a build with overflow checks. A release build would wrap around instead.
- Parser.RecurseRootLevel: the `usize` it returns is dropped, because `parse` ignores it.
- Panic messages and `Debug` output are not modelled; all panics are one outcome.
- `print_tokens` is console output only and is not modelled.
- The test modules and the example files they read are not part of this model.
- Each serialiser's buffer is a string value passed in and returned, not a shared mutable `String`. No aliasing of it is possible in the Rust either.
