/** Whole documents worked through the model in proofs, with the outputs they produce. */
module Scenarios {
  import opened Markup
  import opened PlainText
  import opened PostProcessing
  import opened Footnotes
  import ContentProcessor

  /** Two children render one after the other, the second from the state the first left. */
  lemma RenderPair(m: Node, n: Node, parent: string, acc: Acc)
    ensures var x := Render(m, parent, acc);
            var y := Render(n, parent, x.acc);
            RenderSeq([m, n], parent, acc) == Out(x.text + y.text, y.acc)
  {
    RenderSeqSingle(m, parent, acc);
    RenderSeqSnoc([m], n, parent, acc);
    assert [m] + [n] == [m, n];
  }

  /** The same, given the two renderings. */
  lemma RenderPairOf(m: Node, n: Node, parent: string, acc: Acc, x: Out, y: Out)
    requires Render(m, parent, acc) == x && Render(n, parent, x.acc) == y
    ensures RenderSeq([m, n], parent, acc) == Out(x.text + y.text, y.acc)
  {
    RenderPair(m, n, parent, acc);
  }

  /** Three children likewise. */
  lemma RenderTriple(l: Node, m: Node, n: Node, parent: string, acc: Acc)
    ensures var x := Render(l, parent, acc);
            var y := Render(m, parent, x.acc);
            var z := Render(n, parent, y.acc);
            RenderSeq([l, m, n], parent, acc) == Out(x.text + y.text + z.text, z.acc)
  {
    RenderPair(l, m, parent, acc);
    RenderSeqSnoc([l, m], n, parent, acc);
    assert [l, m] + [n] == [l, m, n];
  }

  // ---------------------------------------------------------------------
  // A paragraph with a link and a paragraph with a footnote, as a tree
  // whose two paragraphs sit directly under the document root:
  //   <p>See <a href="#">it</a>.</p>
  //   <p>Note<sup><a class="footnote" href="#fn1">1</a></sup></p>
  // The `html`, `head` and `body` elements an HTML parser adds around them
  // have no rule of their own and would render to their children.
  // ---------------------------------------------------------------------

  const Link: Node := Elem("a", [Attr("href", "#")], [Text("it")])
  const FirstParagraph: Node := Elem("p", [], [Text("See "), Link, Text(".")])
  const FootnoteAnchor: Node :=
    Elem("a", [Attr("class", "footnote"), Attr("href", "#fn1")], [Text("1")])
  const Footnote: Node := Elem("sup", [], [FootnoteAnchor])
  const SecondParagraph: Node := Elem("p", [], [Text("Note"), Footnote])
  const Article: Node := Elem("#document", [], [FirstParagraph, SecondParagraph])

  /** The state after the link, and after the footnote. */
  const A1: Acc := Acc(2, map[1 := "it"])
  const A2: Acc := Acc(3, map[1 := "it", 2 := "1"])

  /** The link keeps its text, gains the marker `[1]` and claims id 1. */
  lemma LinkText()
    ensures Render(Link, "p", Initial) == Out("it[1]", A1)
  {
    SmallNumerals();
    RenderSeqSingle(Text("it"), "a", Initial);
  }

  lemma FirstParagraphText()
    ensures Render(FirstParagraph, "#document", Initial) == Out("\n\nSee it[1].", A1)
  {
    LinkText();
    RenderTriple(Text("See "), Link, Text("."), "p", Initial);
  }

  /** The footnote shows only its marker `[2]`; its anchor claims no id of its own. */
  lemma FootnoteText()
    ensures Render(Footnote, "p", A1) == Out("[2]", A2)
  {
    SmallNumerals();
    RenderSeqSingle(Text("1"), "a", A1);
    assert Render(FootnoteAnchor, "sup", A1) == Out("1", A1);
    RenderSeqSingle(FootnoteAnchor, "sup", A1);
  }

  lemma SecondParagraphText()
    ensures Render(SecondParagraph, "#document", A1) == Out("\n\nNote[2]", A2)
  {
    FootnoteText();
    RenderPair(Text("Note"), Footnote, "p", A1);
  }

  /** The article renders its paragraphs in order, each behind a blank line. */
  lemma ArticleText()
    ensures RenderDocument(Article) == Out("\n\nSee it[1].\n\nNote[2]", A2)
  {
    FirstParagraphText();
    SecondParagraphText();
    ArticleChildren(FirstParagraph, SecondParagraph, "\n\nSee it[1].", "\n\nNote[2]");
    assert "\n\nSee it[1]." + "\n\nNote[2]" == "\n\nSee it[1].\n\nNote[2]";
  }

  lemma ArticleChildren(p1: Node, p2: Node, t1: string, t2: string)
    requires Render(p1, "#document", Initial) == Out(t1, A1)
    requires Render(p2, "#document", A1) == Out(t2, A2)
    ensures RenderSeq([p1, p2], "#document", Initial) == Out(t1 + t2, A2)
  {
    RenderPair(p1, p2, "#document", Initial);
  }

  /** Two newlines, a line, two newlines, a line: no run of three. */
  lemma TwoParagraphsHaveNoTriple(x: string, y: string)
    requires x != [] && y != [] && '\n' !in x && '\n' !in y
    ensures NoTriple("\n\n" + x + "\n\n" + y)
  {
    var s := "\n\n" + x + "\n\n" + y;
    forall i | 0 <= i && i + 3 <= |s| ensures !TripleAt(s, i) {
      if i <= 1 {
        assert s[2] == x[0];
      } else if i < |x| + 2 {
        assert s[i] == x[i - 2];
      } else if i == |x| + 2 {
        assert s[i + 2] == y[0];
      } else if i == |x| + 3 {
        assert s[i + 1] == y[0];
      } else {
        assert s[i] == y[i - |x| - 4];
      }
    }
  }

  /** Collapsing and trimming drops the blank line in front of two paragraphs. */
  lemma TwoParagraphsTrim(x: string, y: string)
    requires x != [] && y != [] && '\n' !in x && '\n' !in y
    requires !IsWS(x[0]) && !IsWS(y[|y| - 1])
    ensures PostProcess("\n\n" + x + "\n\n" + y) == x + "\n\n" + y
  {
    var body := x + "\n\n" + y;
    TwoParagraphsHaveNoTriple(x, y);
    CollapseKeepsShortRuns("\n\n" + x + "\n\n" + y);
    assert "\n\n" + x + "\n\n" + y == "\n\n" + body + "";
    assert body[0] == x[0] && body[|body| - 1] == y[|y| - 1];
    TrimPadded("\n\n", body, "");
  }

  /**
   * The article's plain text: the link is numbered 1 and keeps its text, the
   * footnote is numbered 2 and keeps only its marker; the table records both,
   * and the blank line in front is trimmed away.
   */
  lemma ArticlePlainText()
    ensures RenderDocument(Article).acc.table == map[1 := "it", 2 := "1"]
    ensures PostProcess(RenderDocument(Article).text) == "See it[1].\n\nNote[2]"
  {
    ArticleText();
    ArticleTrimmed(RenderDocument(Article).text);
  }

  lemma ArticleTrimmed(raw: string)
    requires raw == "\n\nSee it[1].\n\nNote[2]"
    ensures PostProcess(raw) == "See it[1].\n\nNote[2]"
  {
    var x, y := "See it[1].", "Note[2]";
    assert raw == "\n\n" + x + "\n\n" + y;
    assert '\n' !in x && '\n' !in y;
    assert x + "\n\n" + y == "See it[1].\n\nNote[2]";
    TwoParagraphsTrim(x, y);
  }

  lemma RewrittenFootnoteAnchor()
    ensures Rewrite(FootnoteAnchor, "sup")
            == Elem("a", [Attr("href", "#fn1")], [Text("["), Text("1"), Text("]")])
  {
    assert [Attr("href", "#fn1")][1..] == [];
    assert FilterAttrs([Attr("href", "#fn1")]) == [Attr("href", "#fn1")];
    assert FootnoteAnchor.attrs[1..] == [Attr("href", "#fn1")];
  }

  lemma RewriteSingle(n: Node, parent: string)
    ensures RewriteSeq([n], parent) == [Rewrite(n, parent)]
  {
    assert [n][1..] == [];
  }

  lemma RewritePair(m: Node, n: Node, parent: string)
    ensures RewriteSeq([m, n], parent) == [Rewrite(m, parent), Rewrite(n, parent)]
  {
    assert [m, n][1..] == [n];
    RewriteSingle(n, parent);
  }

  /** The footnote becomes a `span` around `<a href="#fn1">[1]</a>`; the link is untouched. */
  lemma ArticleRewrite()
    ensures Rewrite(Article, NoParent)
            == Elem("#document", [], [
                 FirstParagraph,
                 Elem("p", [], [Text("Note"),
                   Elem("span", [], [Elem("a", [Attr("href", "#fn1")], [Text("["), Text("1"), Text("]")])])])])
  {
    RewrittenFootnoteAnchor();
    RewriteSingle(FootnoteAnchor, "sup");
    RewritePair(Text("Note"), Footnote, "p");
    assert NoSup(FirstParagraph) by {
      assert NoSup(Link) by {
        assert NoSupSeq([Text("it")]);
      }
    }
    RewriteWithoutSupIsIdentity(FirstParagraph, "#document");
    RewritePair(FirstParagraph, SecondParagraph, "#document");
  }

  // ---------------------------------------------------------------------
  // A heading: <h1>Hi 5</h1>
  // ---------------------------------------------------------------------

  /** The bold form of "Hi 5": sans-serif bold capital H and small i, then " 5". */
  const BoldHeading: string := "\U{1D5DB}\U{1D5F6} 5"

  lemma BoldHeadingText()
    ensures Bold("Hi 5") == BoldHeading
  {
    BoldCons('H', "i 5"); BoldCons('i', " 5"); BoldCons(' ', "5"); BoldCons('5', "");
    assert "Hi 5" == ['H'] + "i 5" && "i 5" == ['i'] + " 5" && " 5" == [' '] + "5" && "5" == ['5'] + "";
  }

  lemma HeadingRender(h: Node)
    requires h == Elem("h1", [], [Text("Hi 5")])
    ensures RenderDocument(Elem("#document", [], [h])).text == "\n\n" + BoldHeading + "\n\n"
  {
    BoldHeadingText();
    RenderSeqSingle(Text("Hi 5"), "h1", Initial);
    RenderSeqSingle(h, "#document", Initial);
  }

  /** Text between blank lines trims to the text. */
  lemma HeadingTrim(b: string)
    requires b != [] && !IsWS(b[0]) && !IsWS(b[|b| - 1]) && '\n' !in b
    ensures PostProcess("\n\n" + b + "\n\n") == b
  {
    var raw := "\n\n" + b + "\n\n";
    forall i | 0 <= i && i + 3 <= |raw| ensures !TripleAt(raw, i) {
      if i <= 1 {
        assert raw[2] == b[0];
      } else {
        assert raw[i] == b[i - 2];
      }
    }
    CollapseKeepsShortRuns(raw);
    TrimPadded("\n\n", b, "\n\n");
  }

  /**
   * The tree of `<h1>Hi 5</h1>`, the heading directly under the document
   * root: letters in bold, digits and spaces kept, blank lines trimmed.
   */
  lemma HeadingExample()
    ensures PostProcess(RenderDocument(Elem("#document", [], [Elem("h1", [], [Text("Hi 5")])])).text)
            == BoldHeading
  {
    HeadingRender(Elem("h1", [], [Text("Hi 5")]));
    assert '\n' !in BoldHeading;
    HeadingTrim(BoldHeading);
  }

  // ---------------------------------------------------------------------
  // Nested references.  The tree of an anchor inside an anchor (ordinary
  // HTML content never builds it, since a second `<a>` closes the first,
  // but the walk accepts any tree), and the markup
  //   <a href="#">x<sup>1</sup></a>
  // which the parser keeps nested.
  // ---------------------------------------------------------------------

  /**
   * The inner anchor is rendered first and takes id 1, the enclosing one
   * id 2, and the table records the inner marker as part of the outer text.
   */
  lemma NestedAnchorsExample()
    ensures RenderDocument(Elem("#document", [], [Elem("a", [], [Elem("a", [], [Text("x")])])]))
            == Out("x[1][2]", Acc(3, map[1 := "x", 2 := "x[1]"]))
  {
    var inner := Elem("a", [], [Text("x")]);
    var outer := Elem("a", [], [inner]);
    SmallNumerals();
    RenderSeqSingle(Text("x"), "a", Initial);
    var a1 := Acc(2, map[1 := "x"]);
    assert Render(inner, "a", Initial) == Out("x[1]", a1);
    RenderSeqSingle(inner, "a", Initial);
    assert Render(outer, "#document", Initial) == Out("x[1][2]", Claim(a1, "x[1]"));
    RenderSeqSingle(outer, "#document", Initial);
  }

  const MarkedLink: Node :=
    Elem("a", [Attr("href", "#")], [Text("x"), Elem("sup", [], [Text("1")])])

  /** The marker inside the anchor: id 1, recorded with its text. */
  lemma InnerMarkerText()
    ensures Render(Elem("sup", [], [Text("1")]), "a", Initial) == Out("[1]", Acc(2, map[1 := "1"]))
  {
    SmallNumerals();
    RenderSeqSingle(Text("1"), "sup", Initial);
  }

  /** The anchor's two children: the text, then the marker. */
  lemma MarkedLinkChildren()
    ensures RenderSeq([Text("x"), Elem("sup", [], [Text("1")])], "a", Initial)
            == Out("x[1]", Acc(2, map[1 := "1"]))
  {
    var sup := Elem("sup", [], [Text("1")]);
    assert Render(Text("x"), "a", Initial) == Out("x", Initial);
    InnerMarkerText();
    assert "x" + "[1]" == "x[1]";
    RenderPairOf(Text("x"), sup, "a", Initial, Out("x", Initial), Out("[1]", Acc(2, map[1 := "1"])));
  }

  /**
   * An anchor outside a `sup` appends its marker and records its text: the
   * anchor rule alone, without the id arithmetic of
   * `ReferenceTakesIdAfterChildren`, which keeps the literal proof small.
   */
  lemma AnchorOutsideMarker(attrs: seq<Attr>, ch: seq<Node>, parent: string, acc: Acc)
    requires parent != "sup"
    ensures var c := RenderSeq(ch, "a", acc);
            Render(Elem("a", attrs, ch), parent, acc) == Out(c.text + Marker(c.acc.counter), Claim(c.acc, c.text))
  {
  }

  /**
   * The `sup` inside the anchor is numbered before the anchor around it; the
   * anchor's table entry holds the marker as part of its text.
   */
  lemma AnchorAroundMarkerExample()
    ensures Render(MarkedLink, "p", Initial) == Out("x[1][2]", Acc(3, map[1 := "1", 2 := "x[1]"]))
  {
    MarkedLinkChildren();
    AnchorOutsideMarker(MarkedLink.attrs, MarkedLink.children, "p", Initial);
    SmallNumerals();
    assert Marker(2) == "[2]";
    assert "x[1]" + "[2]" == "x[1][2]";
  }

  // ---------------------------------------------------------------------
  // preprocess: <META a><b style="c">
  // ---------------------------------------------------------------------

  lemma MetaRemoved(s: string, rest: string)
    requires s == "<META a>" + rest
    ensures ContentProcessor.StripMeta(s) == ContentProcessor.StripMeta(rest)
  {
    assert ContentProcessor.StartsWithMeta(s);
    assert s[7] == '>' && s[5] == ' ' && s[6] == 'a';
    ContentProcessor.StripMetaRemovesTag(s, 7);
    assert s[8..] == rest;
  }

  lemma StyleRemoved(s: string, rest: string)
    requires s == "style=\"c\"" + rest
    ensures ContentProcessor.StripStyle(s) == ContentProcessor.StripStyle(rest)
  {
    assert ContentProcessor.StartsWithStyle(s);
    assert s[8] == '"' && s[7] == 'c';
    ContentProcessor.StripStyleRemovesAttr(s, 8);
    assert s[9..] == rest;
  }

  /** No `<meta` starts anywhere in `<b style="c">`. */
  lemma TagHasNoMeta(rest: string)
    requires rest == "<b style=\"c\">"
    ensures ContentProcessor.StripMeta(rest) == rest
  {
    ContentProcessor.StripMetaWithoutMeta(rest) by {
      forall i | 0 <= i <= |rest| ensures !ContentProcessor.StartsWithMeta(rest[i..]) {
        if 0 < i < |rest| {
          assert rest[i] != '<';
        }
      }
    }
  }

  /** The tag's opening `<b ` is copied. */
  lemma TagOpeningKept(t: string)
    ensures ContentProcessor.StripStyle("<b " + t) == "<b " + ContentProcessor.StripStyle(t)
  {
    ContentProcessor.StripStyleKeepsChar(' ', t);
    ContentProcessor.StripStyleKeepsChar('b', [' '] + t);
    ContentProcessor.StripStyleKeepsChar('<', ['b'] + ([' '] + t));
    assert "<b " + t == ['<'] + (['b'] + ([' '] + t));
  }

  /** The style attribute is cut out of the tag and the rest is copied. */
  lemma TagLosesStyle(rest: string, attr: string)
    requires attr == "style=\"c\">" && rest == "<b " + attr
    ensures ContentProcessor.StripStyle(rest) == "<b >"
  {
    StyleRemoved(attr, ">");
    ContentProcessor.StripStyleWithoutStyle(">");
    TagOpeningKept(attr);
  }

  /** A charset `<meta>` in capitals and an inline style are both removed. */
  lemma PreprocessExample()
    ensures ContentProcessor.Preprocess("<META a><b style=\"c\">") == "<b >"
  {
    var s, rest, attr := "<META a><b style=\"c\">", "<b style=\"c\">", "style=\"c\">";
    assert s == "<META a>" + rest;
    assert rest == "<b " + attr;
    MetaRemoved(s, rest);
    TagHasNoMeta(rest);
    TagLosesStyle(rest, attr);
    PreprocessSteps(s, rest);
  }

  lemma PreprocessSteps(s: string, rest: string)
    requires ContentProcessor.StripMeta(s) == ContentProcessor.StripMeta(rest) == rest
    requires ContentProcessor.StripStyle(rest) == "<b >"
    ensures ContentProcessor.Preprocess(s) == "<b >"
  {
  }
}
