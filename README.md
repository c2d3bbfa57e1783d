# Social media formatter: content transformation and slug utility

This project models the part of the social-media formatter that does the actual work, and proves
properties of it. Its input is pasted rich text, which it turns into:

- a **plain text**. Links and footnote markers are numbered with inline `[n]` markers, and a
  reference table records what each number stands for. Headings are written in Unicode
  sans-serif bold letters. Runs of blank lines are collapsed and the ends are trimmed. A denser
  variant has every blank line joined.
- a **formatted tree**. Every footnote marker `<sup>` becomes an attribute-less `<span>`. The
  anchor inside it loses its `class` and `rel` attributes and has its content put between `[`
  and `]`.

The project also models the small URL utility. It extracts the last path segment (the *slug*) of
a pasted URL and builds the newsletter's post URL and comments URL from it.

## Modules

- `markup.dfy`: the tree the parser hands over. A node is one of:
  - a text node;
  - an element with a name, attributes and children;
  - a `Leaf`, a node without children such as a comment or doctype.
- `plaintext.dfy`: the plain-text walk `processNodePlainText`, in two forms.
  - `Render` is a function of the node, the name of its parent, and the closure state. That state
    is `counter` and `referenceMap`, held as `Acc`.
  - The class `Renderer` holds that state in mutable fields. Its recursive methods, one of them
    with a loop over the children, are proved to compute exactly `Render`.
  - The module also covers:
    - decimal numerals for the markers;
    - the bold letter map, with its inverse;
    - the bookkeeping of ids: dense, never overwritten, one per qualifying node.
- `footnotes.dfy`: the rewrite `processNodeFormatted`, as a function from tree to tree.
- `post_processing.dfy`: the string steps.
  - `replace(/\n{3,}/g, "\n\n")` collapses every maximal run of three or more newlines.
  - `trim()` removes the exact white-space and line-terminator set of ECMAScript's
    `String.prototype.trim`.
  - `replace(/\n\n/gi, "\n")` scans left to right without overlap.
- `content_processor.dfy`:
  - `preprocess` on the pasted text.
  - `ProcessClipboard`, which runs the renderer, then the post-processing, then the rewrite.
  - The blank-line variant of the output.
- `url_processor.dfy`: `url.match(/\/([^\/]+)$/)` and the two URLs built from its capture.
- `scenarios.dfy`: whole documents worked through the model in proofs, with the text, table
  and tree they produce.

The parent of a node is passed down as a name, with `""` for the document root, which has no
parent. This models the source's `node.parentNode.nodeName` test.

### Behaviour of the code worth knowing

- **Id order.** An anchor or `sup` takes its id only after its children have been rendered,
  because `counter` is read after the recursive calls. Ids are therefore handed out in
  post-order, not in the pre-order a reader might expect. In `<a href="#">x<sup>1</sup></a>` the
  `sup` inside the anchor gets 1 and the anchor 2 (`Scenarios.AnchorAroundMarkerExample`). The
  same holds for the tree `Elem("a", [], [Elem("a", [], [Text("x")])])`, an anchor inside an
  anchor. Ordinary HTML content never builds that tree, because a second `<a>` closes the
  first, but the walk accepts it (`Scenarios.NestedAnchorsExample`).
- **Footnote anchor content.** The children of an anchor directly inside a `sup` are put between
  `[` and `]` as they are. They are not rewritten themselves (src/ContentProcessor.js:108-112).
- **One tree for both passes.** Both passes read the same tree. The plain-text pass runs first
  and does not change the tree. So modelling the rewrite as a function of the original tree
  gives what the source computes.

## Model

| member | source | states |
|---|---|---|
| ContentProcessor.ProcessClipboard | src/ContentProcessor.js:16-128 | The plain text is the collapsed and trimmed rendering of the document: it has no run of three newlines and no white space at either end. The reference table has exactly the keys 1 .. number of qualifying nodes. The formatted tree is the rewrite of the tree as parsed. The rendering starts from `PlainText.RenderDocument`, the walk from the initial counter and empty table of lines 17-18. |
| ContentProcessor.WithoutBlankLines | src/ContentProcessor.js:142 | On a plain text with no run of three newlines, the denser variant is `SquashNewlines` of it: every run of one or two newlines becomes exactly one newline. So no two newlines are left in a row, and every other character is kept, in order. |
| ContentProcessor.Preprocess | src/ContentProcessor.js:4-6 | Preprocessing never lengthens the text. |
| ContentProcessor.StripMeta | src/ContentProcessor.js:5 | The `<meta` pass never lengthens the text. Where a match may start is the predicate `ContentProcessor.StartsWithMeta`: `<` then `meta` in either case, as the `i` flag compares. |
| ContentProcessor.StripStyle | src/ContentProcessor.js:5 | The `style="` pass never lengthens the text. Where a match may start is the predicate `ContentProcessor.StartsWithStyle`: exactly `style="`. |
| ContentProcessor.PreprocessUnchanged | src/ContentProcessor.js:4-6 | A text in which no `<meta` (any case) and no `style="` starts comes out unchanged. |
| ContentProcessor.StripMetaWithoutMeta | src/ContentProcessor.js:5 | With no `<meta` anywhere, the meta pass is the identity. |
| ContentProcessor.StripStyleWithoutStyle | src/ContentProcessor.js:5 | With no `style="` anywhere, the style pass is the identity. |
| ContentProcessor.StripMetaRemovesTag | src/ContentProcessor.js:5 | A `<meta` at the front, letters in any case, is removed through the first `>` after it, and scanning goes on after that. |
| ContentProcessor.StripStyleRemovesAttr | src/ContentProcessor.js:5 | A `style="` at the front is removed through its closing `"`. |
| ContentProcessor.StripMetaKeepsChar | src/ContentProcessor.js:5 | A character that does not start a `<meta` (in any case) is copied, and the scan goes on after it. |
| ContentProcessor.StripStyleKeepsChar | src/ContentProcessor.js:5 | A character that does not start a `style="` is copied, and the scan goes on after it. |
| ContentProcessor.UnclosedStyleIsKept | src/ContentProcessor.js:5 | A `style="` with no closing `"` after it is not a match: its first character is kept. |
| ContentProcessor.UnclosedMetaIsKept | src/ContentProcessor.js:5 | A `<meta` with no `>` after it is not a match: its first character is kept. |
| ContentProcessor.IndexOf | src/ContentProcessor.js:5 | The first position at or after `from` holding the character, or none when there is none. |
| PlainText.Renderer.constructor | src/ContentProcessor.js:17-18 | The walk starts with counter 1 and an empty reference table. |
| PlainText.Renderer.RenderNode | src/ContentProcessor.js:21-76 | The imperative walk returns the text, and leaves the counter and table, that the specification `Render` gives for the node from the state before the call. |
| PlainText.Renderer.RenderChildren | src/ContentProcessor.js:73-75 | Mapping the walk over the children and joining computes `RenderSeq`: the children are rendered in order, each from the state the previous one left. |
| PlainText.Claim | src/ContentProcessor.js:29-38 | `referenceMap.set(counter, content); counter++` as a definition. What it does is stated by `PlainText.ClaimRecords`. |
| PlainText.ClaimRecords | src/ContentProcessor.js:29-38 | Claiming records the content under the current id and moves the counter on by one. On a dense table it adds exactly that key and keeps every earlier entry. |
| PlainText.Render | src/ContentProcessor.js:21-76 | The walk as a definition, with the counter and table threaded through. Its behaviour is stated by `RenderRules`, `HeadingRule`, `ReferenceTakesIdAfterChildren`, `AnchorInMarkerTakesNoId`, `RenderBookkeeping` and `RenderIsTextContent`, and the class `Renderer` is proved equal to it. |
| PlainText.RenderSeq | src/ContentProcessor.js:21-76 | `node.childNodes.map(processNodePlainText).join("")` as a definition. Its behaviour is stated by `RenderSeqSnoc`, `RenderSeqBookkeeping` and `RenderSeqIsTextContent`. |
| PlainText.RenderIsTextContent | src/ContentProcessor.js:21-76 | In a tree without anchors, `sup` elements and headings, the rendering is the tree's text content (`Markup.TextContent`: the text nodes in order, nothing inside a `br`) with newlines inserted (`PostProcessing.NlAdded`). Every character of the text, its own newlines included, appears in order, and only newlines come between. So the two also agree once newlines are taken out of both. |
| PlainText.RenderSeqIsTextContent | src/ContentProcessor.js:21-76 | The same for a list of children: their joined rendering is their joined text content with newlines inserted. |
| PostProcessing.NlAddedAppend | src/ContentProcessor.js:21-76 | Newlines inserted into two texts give newlines inserted into their concatenation, which is how the joined child renderings combine. |
| PostProcessing.NlAddedKeepsText | src/ContentProcessor.js:21-76 | A text with newlines inserted agrees with the text once newlines are taken out of both. |
| PlainText.PlainDocument | src/ContentProcessor.js:17-76 | A document without anchors, `sup` elements and headings renders to its text content with only newlines inserted, and leaves the table empty. |
| PlainText.RenderRules | src/ContentProcessor.js:22-75 | Text renders to its value, and a node without children to "". `br` renders to one newline and never looks at its children. `p` renders to two newlines and its children. Any other element with no rule of its own renders to its children joined. Text, leaves and `br` leave the state untouched. |
| PlainText.HeadingRule | src/ContentProcessor.js:49-71 | A heading is an element whose name passes `Markup.IsHeadingName`, the test `/^h[1-6]$/`. It keeps the children's state. Its text is `\n\n`, then every character of the children's text through the bold map, then `\n\n`: exactly four characters are added. |
| PlainText.ReferenceTakesIdAfterChildren | src/ContentProcessor.js:26-39 | An anchor outside a `sup`, or a `sup`, takes as its id the first id left after its children. Every id nested inside it is smaller. The table maps the id to the children's text, and the counter moves one past it. The anchor emits that text and the marker, the `sup` the marker alone. |
| PlainText.AnchorInMarkerTakesNoId | src/ContentProcessor.js:26-32 | An anchor directly inside a `sup` renders exactly as its children do, with the same text and the same final state: it emits its content and claims no id of its own. |
| PlainText.FootnoteMarker | src/ContentProcessor.js:35-38 | `<sup><a>…</a></sup>` with reference-free content emits `[counter]`. It records the anchor's text under that id, even when the text is empty. |
| PlainText.RenderBookkeeping | src/ContentProcessor.js:17-39 | Rendering a node advances the counter by exactly the number of anchors outside `sup` and of `sup` elements in it (children of `br` are not visited). It keeps the table's keys exactly 1 .. counter-1 and never changes an entry made before. |
| PlainText.RenderSeqBookkeeping | src/ContentProcessor.js:27 | The same for a list of children. |
| PlainText.DocumentTable | src/ContentProcessor.js:17-39 | For a whole document the table's keys are exactly 1 .. n, where n is the number of qualifying nodes: dense, from 1, no gaps. |
| PlainText.NoReferencesEmptyTable | src/ContentProcessor.js:17-39 | A document without anchors and `sup` elements leaves the table empty and the counter at 1. |
| PlainText.NoReferencesKeepsState | src/ContentProcessor.js:21-76 | A subtree with no anchor and no `sup` leaves the state as it found it. |
| PlainText.RenderIgnoresAttrs | src/ContentProcessor.js:21-76 | The rendering does not depend on attributes: an anchor without `href` is numbered like any other. |
| PlainText.RenderSeqSnoc | src/ContentProcessor.js:27 | One more child at the end is rendered after the others, from the state they left. |
| PlainText.NatToString | src/ContentProcessor.js:30 | The printed id is a non-empty string of decimal digits without a leading zero. |
| PlainText.DecimalRoundTrip | src/ContentProcessor.js:30 | Reading a printed id back as a decimal numeral gives the id. |
| PlainText.NatToStringInjective | src/ContentProcessor.js:30 | Distinct ids print differently. |
| PlainText.Marker | src/ContentProcessor.js:30 | A marker is `[`, the decimal id, then `]`. |
| PlainText.BoldChar | src/ContentProcessor.js:56-67 | A lower-case ASCII letter moves to MATHEMATICAL SANS-SERIF BOLD SMALL (offset 0x1D58D), an upper-case one to the CAPITAL letters (offset 0x1D593). Every other character is kept. |
| PlainText.Bold | src/ContentProcessor.js:54-68 | The heading map keeps the length and maps every character by itself. |
| PlainText.BoldAppend | src/ContentProcessor.js:54-68 | The map distributes over concatenation. |
| PlainText.BoldRoundTrip | src/ContentProcessor.js:54-68 | Unless the text already held bold letters, mapping them back gives the original text: no information is lost. |
| PlainText.BoldHasNoAsciiLetter | src/ContentProcessor.js:54-68 | A bolded heading contains no ASCII letter. |
| Footnotes.Rewrite | src/ContentProcessor.js:78-118 | Text and other non-element nodes are returned as they are. Every element stays an element, and a `sup` becomes a `span` with no attributes. Any other element keeps its name. For the children see `Footnotes.RewriteRules`. |
| Footnotes.RewriteRules | src/ContentProcessor.js:78-118 | A `sup` becomes a `span` without attributes whose children are its rewritten children. An anchor directly inside a `sup` keeps its name and its other attributes, and its children are left unchanged between `[` and `]`. Any other element keeps its name and attributes and has its children rewritten. |
| Footnotes.FilterAttrs | src/ContentProcessor.js:92-95 | An attribute is kept exactly when it was there and is named neither `class` nor `rel`; that test is the predicate `Footnotes.KeepAttr`. |
| Footnotes.FilterAttrsAppend | src/ContentProcessor.js:92-95 | The filter keeps the order of the attributes. |
| Footnotes.FilterAttrsKeepsOthers | src/ContentProcessor.js:92-95 | Attributes without `class` and `rel` are all kept, in order. |
| Footnotes.RewriteSeq | src/ContentProcessor.js:86 | Rewriting children keeps their number. |
| Footnotes.RewriteSeqAt | src/ContentProcessor.js:114 | The i-th rewritten child is the rewrite of the i-th child. |
| Footnotes.RewriteWithoutSupIsIdentity | src/ContentProcessor.js:113-117 | Outside a `sup`, a subtree with no `sup` is left exactly as it was. |
| Footnotes.RewriteRemovesSup | src/ContentProcessor.js:78-118 | When the content of footnote anchors holds no `sup`, no `sup` is left after the rewrite. |
| Footnotes.RewriteIdempotent | src/ContentProcessor.js:78-118 | Under the same condition, rewriting the resulting tree value again changes nothing. This is the tree as it would be re-parsed from the output. In the source's own object tree the bracketed anchor's `parentNode` still names the replaced `sup`, and the source never rewrites twice. |
| PostProcessing.LeadingNewlines | src/ContentProcessor.js:121 | The length of the newline run at the front: all of it newlines, followed by something else or the end. |
| PostProcessing.CollapseNewlines | src/ContentProcessor.js:121 | The collapse never lengthens the text and keeps a leading character that is not a newline. |
| PostProcessing.CollapseHasNoTriple | src/ContentProcessor.js:121 | After the collapse no three newlines are in a row. |
| PostProcessing.CollapseKeepsShortRuns | src/ContentProcessor.js:121 | A text without three newlines in a row is left as it is. |
| PostProcessing.CollapseIdempotent | src/ContentProcessor.js:121 | Collapsing twice is collapsing once. |
| PostProcessing.CollapseKeepsText | src/ContentProcessor.js:121 | The collapse removes only newlines: the other characters survive in order. |
| PostProcessing.Nl | src/ContentProcessor.js:121 | A run of `k` newlines: exactly `k` characters, all of them newlines. |
| PostProcessing.LeadingNewlinesOfRun | src/ContentProcessor.js:121 | A run of `k` newlines followed by a text not starting with a newline has a leading run of exactly `k`. |
| PostProcessing.CollapseRun | src/ContentProcessor.js:121 | For every `k` and every rest not starting with a newline, a run of `k` newlines becomes exactly `\n\n` when `k` is three or more, stays as it is otherwise, and the rest is collapsed on its own. |
| PostProcessing.CollapseChar | src/ContentProcessor.js:121 | A character that is not a newline is kept, and the rest is collapsed on its own. |
| PostProcessing.TrimStart | src/ContentProcessor.js:122 | What is left is a suffix that starts with no white space, and everything dropped is white space. |
| PostProcessing.TrimEnd | src/ContentProcessor.js:122 | What is left is a prefix that ends with no white space, and everything dropped is white space. |
| PostProcessing.Trim | src/ContentProcessor.js:122 | `trim()` never lengthens the text. What it keeps is stated by `PostProcessing.TrimIsMaximalSlice`. The white space is `PostProcessing.IsWS`, the WhiteSpace and LineTerminator set of ECMAScript. |
| PostProcessing.TrimIsMaximalSlice | src/ContentProcessor.js:122 | The trimmed text neither starts nor ends with white space. The input is white space, then the trimmed text, then white space. |
| PostProcessing.TrimPadded | src/ContentProcessor.js:122 | Trimming white space around a non-empty trimmed text gives that text back. |
| PostProcessing.TrimKeepsTrimmed | src/ContentProcessor.js:122 | A text with no white space at its ends is its own trim. |
| PostProcessing.TrimKeepsNoTriple | src/ContentProcessor.js:120-122 | Trimming cannot create three newlines in a row. |
| PostProcessing.PostProcess | src/ContentProcessor.js:120-122 | The collapse followed by the trim never lengthens the text. Its shape is stated by `PostProcessing.PostProcessShape`. |
| PostProcessing.PostProcessShape | src/ContentProcessor.js:120-122 | The final plain text has no run of three newlines and is trimmed, whatever the rendering was. |
| PostProcessing.JoinBlankLines | src/ContentProcessor.js:142 | The variant never lengthens the text and keeps a leading character that is not a newline. |
| PostProcessing.JoinBlankLinesHasNoDouble | src/ContentProcessor.js:142 | On a text with no run of three newlines, no two newlines are left in a row. |
| PostProcessing.JoinBlankLinesKeepsSingles | src/ContentProcessor.js:142 | A text without two newlines in a row is left as it is. |
| PostProcessing.JoinBlankLinesKeepsText | src/ContentProcessor.js:142 | Only newlines are removed; every other character survives in order. |
| PostProcessing.JoinBlankLinesRun | src/ContentProcessor.js:142 | For every `k` and every rest not starting with a newline, a run of `k` newlines becomes a run of `(k + 1) / 2` newlines (pairs replaced left to right, an odd one kept), and the rest is handled on its own. |
| PostProcessing.JoinBlankLinesChar | src/ContentProcessor.js:142 | A character that is not a newline is kept, and the rest is handled on its own. |
| PostProcessing.SquashNewlines | src/ContentProcessor.js:142 | An independent reference: every run of newlines becomes one newline. It never lengthens the text. |
| PostProcessing.JoinBlankLinesSquashes | src/ContentProcessor.js:142 | On a text with no run of three newlines, the variant equals `SquashNewlines`. |
| PostProcessing.JoinBlankLinesLeftToRight | src/ContentProcessor.js:142 | Pairs are replaced left to right without overlap: three newlines become two, four become two, and `a\n\nb` becomes `a\nb`. |
| PostProcessing.PlainTextVariants | src/ContentProcessor.js:120-142 | Both outputs at once: the plain text has no triple newlines and is trimmed. Its variant has no double newlines and the same non-newline characters. |
| UrlProcessor.MatchFrom | src/URLProcessor.js:15 | The regex fails exactly when no `/` is left in the scanned part or the URL ends with `/`. Otherwise the capture is the non-empty, slash-free rest of the URL after a `/`. |
| UrlProcessor.ExtractSlug | src/URLProcessor.js:15-17 | A slug exists exactly when the URL contains a `/` and does not end with one. It is then the non-empty text after the last `/`. |
| UrlProcessor.OnUrlChange | src/URLProcessor.js:15-27 | The slug is empty exactly when the URL holds no `/` or ends with one. Otherwise the slug is the non-empty, slash-free text after the last `/`. The post URL is the prefix followed by the slug and the comments URL is that plus `/comments`. Both are empty when there is no slug. |
| UrlProcessor.LastSegmentIsSlug | src/URLProcessor.js:15-22 | For any URL ending in `/segment`, the slug is the segment. The post URL is `https://billmei.substack.com/p/` followed by the segment, and the comments URL is that plus `/comments`. |
| UrlProcessor.NoSegmentGivesNothing | src/URLProcessor.js:23-27 | A URL with no `/`, or ending with `/`, clears all three values. |
| UrlProcessor.LinksDependOnSegmentOnly | src/URLProcessor.js:19-22 | The values depend only on the last segment, not on the host or path before it. |
| UrlProcessor.PostUrlRoundTrip | src/URLProcessor.js:15-22 | For every URL, pasting the generated post URL back in gives the same slug and URLs. A URL with no slug yields the empty links, and pasting those back in gives them again. |
| Scenarios.ArticleText | src/ContentProcessor.js:21-76 | The tree of `<p>See <a href="#">it</a>.</p><p>Note<sup><a class="footnote" href="#fn1">1</a></sup></p>`, with the two paragraphs directly under the document root, renders to `\n\nSee it[1].\n\nNote[2]` with table {1: "it", 2: "1"}. |
| Scenarios.ArticlePlainText | src/ContentProcessor.js:120-122 | The same article's final plain text is `See it[1].\n\nNote[2]` and its table is {1: "it", 2: "1"}. |
| Scenarios.ArticleRewrite | src/ContentProcessor.js:78-118 | In the same article, the first paragraph is untouched. The `sup` becomes `<span><a href="#fn1">[1]</a></span>`. |
| Scenarios.HeadingExample | src/ContentProcessor.js:49-71 | The tree of `<h1>Hi 5</h1>`, with the heading directly under the document root, gives the bold letters for `Hi` followed by ` 5`, with the blank lines trimmed. |
| Scenarios.NestedAnchorsExample | src/ContentProcessor.js:26-33 | The tree `Elem("a", [], [Elem("a", [], [Text("x")])])` under the document renders to `x[1][2]` with table {1: "x", 2: "x[1]"}: the inner anchor is numbered first. |
| Scenarios.InnerMarkerText | src/ContentProcessor.js:34-39 | `<sup>1</sup>` inside an anchor renders to `[1]` and records {1: "1"}. |
| Scenarios.MarkedLinkChildren | src/ContentProcessor.js:26-39 | The children `x<sup>1</sup>` of an anchor render to `x[1]` with table {1: "1"}. |
| Scenarios.AnchorAroundMarkerExample | src/ContentProcessor.js:26-39 | `<a href="#">x<sup>1</sup></a>` inside a paragraph renders to `x[1][2]` with table {1: "1", 2: "x[1]"}: the `sup` inside is numbered before the anchor around it. |
| Scenarios.PreprocessExample | src/ContentProcessor.js:4-6 | `<META a><b style="c">` preprocesses to `<b >`. |

## Left out

- The React component around the core is not modelled: its state hooks, the paste and input
  handlers, the copy buttons, the clipboard API and the timers (src/ContentProcessor.js:8-15,
  130-241; src/URLProcessor.js:1-13, 30-132). This is UI and browser I/O.
  `UrlProcessor.OnUrlChange` returns the three values the handler would store.
- Parsing with parse5 `parse` and serialization with `serialize` are parts of an external
  library. The model takes the parsed tree as input and returns the rewritten tree instead of its
  HTML text.
- The rewrite changes the parsed tree in place and builds new objects (with `tagName`,
  `namespaceURI` and the `parentNode` links of the bracket nodes). The model is a pure function
  on tree values, so object identity, aliasing and those extra fields are not captured.
  `node.parentNode.nodeName` is modelled by passing the parent's name down the walk.
- The example documents in `scenarios.dfy` are trees with their elements directly under the
  document root. An HTML parser would put them inside `html` and `body`, next to an empty `head`.
  Those elements have no rule of their own and render to their children, so the text is the same.
- `<template>` content, which parse5 keeps outside `childNodes`, is not distinguished. A node's
  children are the children the model is given.
- Characters are Unicode scalar values, not the UTF-16 code units that `split("")` yields. The
  result is the same: surrogate halves are never ASCII letters, so they pass through and are
  joined back. Lengths in the model count code points.
- `PlainText.NatToString`: ids are unbounded naturals. JavaScript prints integers exactly only
  up to 2^53, and a document never gets near that.
- The reference table is built but never read by the rest of the source. The model returns it
  from `ProcessClipboard` so that what it records can be stated.
- `ContentProcessor.Preprocess`: its own contract states only that the text does not grow. Both
  passes are fixed on every input by the lemmas listed below.
- `ContentProcessor.StripMeta`, `ContentProcessor.StripStyle`: their own contracts state only
  that the text does not grow. Together the following lemmas fix the result on every non-empty
  input, one step at a time:
  - `StripMetaKeepsChar` or `StripStyleKeepsChar`: a match does not start here, and the character is kept.
  - `StripMetaRemovesTag` or `StripStyleRemovesAttr`: a closed match starts here and is removed.
  - `UnclosedMetaIsKept` or `UnclosedStyleIsKept`: an unclosed one starts here, and its first character is kept.
- `PostProcessing.CollapseNewlines`: its own contract states only the length and the leading
  character. The exact behaviour on every input is stated by `PostProcessing.CollapseRun` and
  `PostProcessing.CollapseChar`, which between them cover every text.
- `PostProcessing.JoinBlankLines`: its own contract states only the length and the leading
  character. The exact behaviour on every input is stated by `PostProcessing.JoinBlankLinesRun`
  and `PostProcessing.JoinBlankLinesChar`.
- src/ClipboardProcessor.js and src/App.js are not part of this model.
