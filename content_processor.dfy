/**
 * The content processor: `preprocess` on the pasted text, then
 * `processClipboard` on the parsed tree, which produces the plain text (with
 * its reference table) and the rewritten tree.
 */
module ContentProcessor {
  import opened Wrappers
  import opened Markup
  import PlainText
  import PostProcessing
  import Footnotes

  // ---------------------------------------------------------------------
  // preprocess
  // ---------------------------------------------------------------------

  /** The first index at or after `from` where `s` holds `c`. */
  function IndexOf(s: string, c: char, from: nat): (r: Option<nat>)
    ensures r.Some? ==> from <= r.value < |s| && s[r.value] == c
    ensures r.Some? ==> forall k :: from <= k < r.value ==> s[k] != c
    ensures r.None? ==> forall k :: from <= k < |s| ==> s[k] != c
    decreases |s| - from
  {
    if from >= |s| then None
    else if s[from] == c then Some(from)
    else IndexOf(s, c, from + 1)
  }

  function LowerAscii(c: char): (r: char) {
    if 'A' <= c <= 'Z' then (c as int + 32) as char else c
  }

  /** `s` starts with `<meta`, its letters in either case (the `i` flag). */
  predicate StartsWithMeta(s: string) {
    && |s| >= 5 && s[0] == '<'
    && LowerAscii(s[1]) == 'm' && LowerAscii(s[2]) == 'e'
    && LowerAscii(s[3]) == 't' && LowerAscii(s[4]) == 'a'
  }

  /**
   * `replace(/<meta[^>]*>/gi, "")`: from the left, every `<meta` up to and
   * including the first `>` after it is removed; a `<meta` with no `>`
   * after it is no match and stays.  The text left over is not searched again.
   */
  function StripMeta(s: string): (r: string)
    ensures |r| <= |s|
    decreases |s|
  {
    if s == [] then []
    else if StartsWithMeta(s) && IndexOf(s, '>', 5).Some? then StripMeta(s[IndexOf(s, '>', 5).value + 1..])
    else [s[0]] + StripMeta(s[1..])
  }

  /** The length of `style="`. */
  const StyleOpenLength: nat := 7

  /** `s` starts with `style="`. */
  predicate StartsWithStyle(s: string) {
    && |s| >= StyleOpenLength
    && s[0] == 's' && s[1] == 't' && s[2] == 'y' && s[3] == 'l' && s[4] == 'e'
    && s[5] == '=' && s[6] == '"'
  }

  /** `replace(/style="[^"]*"/g, "")`: every `style="…"` attribute text is removed. */
  function StripStyle(s: string): (r: string)
    ensures |r| <= |s|
    decreases |s|
  {
    if s == [] then []
    else if StartsWithStyle(s) && IndexOf(s, '"', StyleOpenLength).Some? then
      StripStyle(s[IndexOf(s, '"', StyleOpenLength).value + 1..])
    else [s[0]] + StripStyle(s[1..])
  }

  function Preprocess(text: string): (r: string)
    ensures |r| <= |text|
  {
    StripStyle(StripMeta(text))
  }

  /** A text in which no `<meta` starts is left as it is. */
  lemma {:induction false} StripMetaWithoutMeta(s: string)
    requires forall i :: 0 <= i <= |s| ==> !StartsWithMeta(s[i..])
    ensures StripMeta(s) == s
    decreases |s|
  {
    if s != [] {
      assert !StartsWithMeta(s[0..]) && s[0..] == s;
      forall i | 0 <= i <= |s[1..]| ensures !StartsWithMeta(s[1..][i..]) {
        assert s[1..][i..] == s[i + 1..];
      }
      StripMetaWithoutMeta(s[1..]);
    }
  }

  /** A text in which no `style="` starts is left as it is. */
  lemma {:induction false} StripStyleWithoutStyle(s: string)
    requires forall i :: 0 <= i <= |s| ==> !StartsWithStyle(s[i..])
    ensures StripStyle(s) == s
    decreases |s|
  {
    if s != [] {
      assert !StartsWithStyle(s[0..]) && s[0..] == s;
      forall i | 0 <= i <= |s[1..]| ensures !StartsWithStyle(s[1..][i..]) {
        assert s[1..][i..] == s[i + 1..];
      }
      StripStyleWithoutStyle(s[1..]);
    }
  }

  /** Text with neither a `<meta` (in any case) nor a `style="` passes through unchanged. */
  lemma PreprocessUnchanged(s: string)
    requires forall i :: 0 <= i <= |s| ==> !StartsWithMeta(s[i..]) && !StartsWithStyle(s[i..])
    ensures Preprocess(s) == s
  {
    StripMetaWithoutMeta(s);
    StripStyleWithoutStyle(s);
  }

  /**
   * A `<meta …>` tag at the front, in any case, is removed up to its first
   * `>`; the text after it is then scanned on.
   */
  lemma StripMetaRemovesTag(s: string, close: nat)
    requires StartsWithMeta(s)
    requires 5 <= close < |s| && s[close] == '>'
    requires forall k :: 5 <= k < close ==> s[k] != '>'
    ensures StripMeta(s) == StripMeta(s[close + 1..])
  {
  }

  /** A `style="…"` at the front is removed up to its closing quote. */
  lemma StripStyleRemovesAttr(s: string, close: nat)
    requires StartsWithStyle(s)
    requires StyleOpenLength <= close < |s| && s[close] == '"'
    requires forall k :: StyleOpenLength <= k < close ==> s[k] != '"'
    ensures StripStyle(s) == StripStyle(s[close + 1..])
  {
  }

  /** A character that does not start a `<meta` is copied, and the scan goes on after it. */
  lemma StripMetaKeepsChar(c: char, s: string)
    requires !StartsWithMeta([c] + s)
    ensures StripMeta([c] + s) == [c] + StripMeta(s)
  {
    assert ([c] + s)[1..] == s;
  }

  /** A character that does not start a `style="` is copied, and the scan goes on after it. */
  lemma StripStyleKeepsChar(c: char, s: string)
    requires !StartsWithStyle([c] + s)
    ensures StripStyle([c] + s) == [c] + StripStyle(s)
  {
    assert ([c] + s)[1..] == s;
  }

  /** A `style="` with no closing `"` after it is kept. */
  lemma UnclosedStyleIsKept(s: string)
    requires StartsWithStyle(s)
    requires forall k :: StyleOpenLength <= k < |s| ==> s[k] != '"'
    ensures StripStyle(s) == [s[0]] + StripStyle(s[1..])
  {
  }

  /** A `<meta` with no `>` after it is kept. */
  lemma UnclosedMetaIsKept(s: string)
    requires StartsWithMeta(s)
    requires forall k :: 5 <= k < |s| ==> s[k] != '>'
    ensures StripMeta(s) == [s[0]] + StripMeta(s[1..])
  {
  }

  // ---------------------------------------------------------------------
  // processClipboard
  // ---------------------------------------------------------------------

  /**
   * The plain text (collapsed and trimmed), the reference table the walk
   * built, and the rewritten tree.  The renderer reads the tree as parsed,
   * before the rewriter changes it.
   */
  method ProcessClipboard(document: Node) returns (plainText: string, references: map<nat, string>, formatted: Node)
    ensures plainText == PostProcessing.PostProcess(PlainText.RenderDocument(document).text)
    ensures PostProcessing.NoTriple(plainText) && PostProcessing.IsTrimmed(plainText)
    ensures references == PlainText.RenderDocument(document).acc.table
    ensures forall k :: k in references <==> 1 <= k <= PlainText.RefCount(document, NoParent)
    ensures formatted == Footnotes.Rewrite(document, NoParent)
  {
    var renderer := new PlainText.Renderer();
    var raw := renderer.RenderNode(document, NoParent);
    plainText := PostProcessing.PostProcess(raw);
    references := renderer.table;
    formatted := Footnotes.Rewrite(document, NoParent);
    PostProcessing.PostProcessShape(raw);
    PlainText.DocumentTable(document);
  }

  /**
   * `plainText.replace(/\n\n/gi, "\n")`: the output for platforms without
   * paragraph spacing.  On the plain text, which has no run of three
   * newlines, every blank line becomes a single line break.
   */
  function WithoutBlankLines(plainText: string): (r: string)
    requires PostProcessing.NoTriple(plainText)
    ensures PostProcessing.NoDouble(r)
    ensures PostProcessing.WithoutNewlines(r) == PostProcessing.WithoutNewlines(plainText)
    ensures r == PostProcessing.SquashNewlines(plainText)
  {
    PostProcessing.JoinBlankLinesSquashes(plainText);
    PostProcessing.JoinBlankLinesHasNoDouble(plainText);
    PostProcessing.JoinBlankLinesKeepsText(plainText);
    PostProcessing.JoinBlankLines(plainText)
  }
}
