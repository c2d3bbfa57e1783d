/**
 * The plain-text renderer of the content processor (`processNodePlainText`):
 * a walk of the markup tree that turns headings into bold mathematical
 * letters and numbers anchors and footnote markers with inline `[n]`
 * markers, recording in a reference table what each number stands for.
 *
 * `Render` is the specification: it threads the closure state of the
 * source (`counter` and `referenceMap`) through the walk as an `Acc`.
 * The class `Renderer` is the imperative walk itself, proved equal to it.
 */
module PlainText {
  import opened Markup
  import PostProcessing

  // ---------------------------------------------------------------------
  // Decimal numbers, as the template strings `${counter}` print them
  // ---------------------------------------------------------------------

  predicate IsDigit(c: char) {
    '0' <= c <= '9'
  }

  function DigitChar(d: nat): (c: char)
    requires d < 10
    ensures IsDigit(c) && c as int - '0' as int == d
  {
    ('0' as int + d) as char
  }

  /** The decimal numeral of `n`, without leading zeros. */
  function NatToString(n: nat): (r: string)
    ensures |r| >= 1
    ensures forall i :: 0 <= i < |r| ==> IsDigit(r[i])
    ensures r[0] == '0' ==> n == 0
    decreases n
  {
    if n < 10 then [DigitChar(n)] else NatToString(n / 10) + [DigitChar(n % 10)]
  }

  function DigitValue(c: char): (d: nat)
    requires IsDigit(c)
  {
    c as int - '0' as int
  }

  /** The value of a decimal numeral, read most significant digit first. */
  function DecimalValue(s: string): (v: nat)
    requires forall i :: 0 <= i < |s| ==> IsDigit(s[i])
  {
    if s == [] then 0
    else 10 * DecimalValue(s[..|s| - 1]) + DigitValue(s[|s| - 1])
  }

  /** Printing a number and reading it back gives the number. */
  lemma {:induction false} DecimalRoundTrip(n: nat)
    ensures DecimalValue(NatToString(n)) == n
    decreases n
  {
    if n >= 10 {
      DecimalRoundTrip(n / 10);
      var s := NatToString(n);
      assert s[..|s| - 1] == NatToString(n / 10);
    }
  }

  /** Distinct ids print as distinct numerals. */
  lemma NatToStringInjective(m: nat, n: nat)
    requires NatToString(m) == NatToString(n)
    ensures m == n
  {
    DecimalRoundTrip(m);
    DecimalRoundTrip(n);
  }

  lemma SmallNumerals()
    ensures NatToString(1) == "1" && NatToString(2) == "2"
  {
    assert DigitChar(1) == '1' && DigitChar(2) == '2';
  }

  /** The inline marker `[n]`. */
  function Marker(id: nat): (r: string)
    ensures |r| >= 3 && r[0] == '[' && r[|r| - 1] == ']'
    ensures r[1..|r| - 1] == NatToString(id)
  {
    "[" + NatToString(id) + "]"
  }

  // ---------------------------------------------------------------------
  // Bold headings
  // ---------------------------------------------------------------------

  /** MATHEMATICAL SANS-SERIF BOLD SMALL A and CAPITAL A. */
  const BoldSmallA: char := '\U{1D5EE}'
  const BoldCapitalA: char := '\U{1D5D4}'

  predicate IsLowerAscii(c: char) { 'a' <= c <= 'z' }
  predicate IsUpperAscii(c: char) { 'A' <= c <= 'Z' }

  /** The shift of one letter of a heading. */
  function BoldChar(c: char): (r: char)
    ensures IsLowerAscii(c) ==> r as int == c as int + 0x1D58D
    ensures IsUpperAscii(c) ==> r as int == c as int + 0x1D593
    ensures !IsLowerAscii(c) && !IsUpperAscii(c) ==> r == c
  {
    if IsLowerAscii(c) then (c as int + (BoldSmallA as int - 'a' as int)) as char
    else if IsUpperAscii(c) then (c as int + (BoldCapitalA as int - 'A' as int)) as char
    else c
  }

  /** The text of a heading, letter by letter in bold: nothing is added or dropped. */
  function Bold(s: string): (r: string)
    ensures |r| == |s|
    ensures forall i :: 0 <= i < |s| ==> r[i] == BoldChar(s[i])
  {
    if s == [] then [] else [BoldChar(s[0])] + Bold(s[1..])
  }

  lemma BoldCons(c: char, s: string)
    ensures Bold([c] + s) == [BoldChar(c)] + Bold(s)
  {
    assert ([c] + s)[1..] == s;
  }

  /** The heading map works character by character, so it distributes over concatenation. */
  lemma BoldAppend(a: string, b: string)
    ensures Bold(a + b) == Bold(a) + Bold(b)
  {
    var l, r := Bold(a + b), Bold(a) + Bold(b);
    forall i | 0 <= i < |a + b| ensures l[i] == r[i] {
      if i < |a| {
        assert (a + b)[i] == a[i];
      } else {
        assert (a + b)[i] == b[i - |a|];
      }
    }
  }

  predicate IsBoldLetter(c: char) {
    BoldCapitalA as int <= c as int < BoldCapitalA as int + 52
  }

  /** The inverse of `BoldChar` on its image. */
  function UnboldChar(c: char): (r: char) {
    if BoldSmallA as int <= c as int < BoldSmallA as int + 26 then
      (c as int - (BoldSmallA as int - 'a' as int)) as char
    else if BoldCapitalA as int <= c as int < BoldCapitalA as int + 26 then
      (c as int - (BoldCapitalA as int - 'A' as int)) as char
    else c
  }

  function Unbold(s: string): (r: string)
    ensures |r| == |s|
    ensures forall i :: 0 <= i < |s| ==> r[i] == UnboldChar(s[i])
  {
    if s == [] then [] else [UnboldChar(s[0])] + Unbold(s[1..])
  }

  /**
   * A bold heading loses no information: unless the text already held bold
   * letters, mapping them back gives the original text.
   */
  lemma BoldRoundTrip(s: string)
    requires forall i :: 0 <= i < |s| ==> !IsBoldLetter(s[i])
    ensures Unbold(Bold(s)) == s
  {
    var b := Bold(s);
    forall i | 0 <= i < |s|
      ensures Unbold(b)[i] == s[i]
    {
      BoldCharRoundTrip(s[i]);
    }
  }

  lemma BoldCharRoundTrip(c: char)
    requires !IsBoldLetter(c)
    ensures UnboldChar(BoldChar(c)) == c
  {
    if IsLowerAscii(c) {
      assert BoldSmallA as int <= BoldChar(c) as int < BoldSmallA as int + 26;
    } else if IsUpperAscii(c) {
      assert BoldCapitalA as int <= BoldChar(c) as int < BoldCapitalA as int + 26;
    }
  }

  /** A bold heading holds no ASCII letter. */
  lemma BoldHasNoAsciiLetter(s: string)
    ensures forall i :: 0 <= i < |Bold(s)| ==> !IsLowerAscii(Bold(s)[i]) && !IsUpperAscii(Bold(s)[i])
  {
    var b := Bold(s);
    forall i | 0 <= i < |b|
      ensures !IsLowerAscii(b[i]) && !IsUpperAscii(b[i])
    {
      assert b[i] == BoldChar(s[i]);
    }
  }

  // ---------------------------------------------------------------------
  // The walk, as a function of the closure state
  // ---------------------------------------------------------------------

  /** The closure state of one rendering: the next id and the reference table. */
  datatype Acc = Acc(counter: nat, table: map<nat, string>)

  /** `let counter = 1; const referenceMap = new Map();` */
  const Initial := Acc(1, map[])

  /** What one call returns with the state it leaves behind. */
  datatype Out = Out(text: string, acc: Acc)

  /** `referenceMap.set(counter, content); counter++`. */
  function Claim(acc: Acc, content: string): (r: Acc) {
    Acc(acc.counter + 1, acc.table[acc.counter := content])
  }

  /**
   * Claiming records `content` under the current id and moves the counter
   * on; on a dense table it adds exactly that key and keeps every entry.
   */
  lemma ClaimRecords(acc: Acc, content: string)
    ensures var r := Claim(acc, content);
            && r.counter == acc.counter + 1
            && acc.counter in r.table && r.table[acc.counter] == content
            && (Dense(acc) ==> Dense(r) && Keeps(acc, r))
  {
  }

  /** The rendering of node `n`, whose parent is named `parent`, from state `acc`. */
  function Render(n: Node, parent: string, acc: Acc): (o: Out)
    decreases n
  {
    match n
    case Text(v) => Out(v, acc)
    case Leaf => Out("", acc)
    case Elem(name, _, ch) =>
      if name == "a" then
        var c := RenderSeq(ch, name, acc);
        if parent != "sup" then Out(c.text + Marker(c.acc.counter), Claim(c.acc, c.text))
        else c
      else if name == "sup" then
        var c := RenderSeq(ch, name, acc);
        Out(Marker(c.acc.counter), Claim(c.acc, c.text))
      else if name == "p" then
        var c := RenderSeq(ch, name, acc);
        Out("\n\n" + c.text, c.acc)
      else if name == "br" then
        Out("\n", acc)
      else if IsHeadingName(name) then
        var c := RenderSeq(ch, name, acc);
        Out("\n\n" + Bold(c.text) + "\n\n", c.acc)
      else
        RenderSeq(ch, name, acc)
  }

  /**
   * The children `ns` of an element named `parent`, rendered in order and
   * joined; the state of each child's rendering feeds the next.
   */
  function RenderSeq(ns: seq<Node>, parent: string, acc: Acc): (o: Out)
    decreases ns
  {
    if ns == [] then Out("", acc)
    else
      var front := RenderSeq(ns[..|ns| - 1], parent, acc);
      var last := Render(ns[|ns| - 1], parent, front.acc);
      Out(front.text + last.text, last.acc)
  }

  /** Rendering a list with one more child at the end renders that child after the rest. */
  lemma RenderSeqSnoc(ns: seq<Node>, n: Node, parent: string, acc: Acc)
    ensures var front := RenderSeq(ns, parent, acc);
            var last := Render(n, parent, front.acc);
            RenderSeq(ns + [n], parent, acc) == Out(front.text + last.text, last.acc)
  {
    assert (ns + [n])[..|ns|] == ns;
  }

  /** A single child renders as itself. */
  lemma RenderSeqSingle(n: Node, parent: string, acc: Acc)
    ensures RenderSeq([n], parent, acc) == Render(n, parent, acc)
  {
    RenderSeqSnoc([], n, parent, acc);
    assert [] + [n] == [n];
    assert "" + Render(n, parent, acc).text == Render(n, parent, acc).text;
  }

  /** The rendering of a whole document, from the initial state. */
  function RenderDocument(root: Node): (o: Out) {
    Render(root, NoParent, Initial)
  }

  // ---------------------------------------------------------------------
  // Id bookkeeping
  // ---------------------------------------------------------------------

  /**
   * The number of ids a node consumes: one for every `sup` and every `a`
   * whose parent is not a `sup`, leaving out the children of `br`, which
   * the walk never visits.
   */
  function RefCount(n: Node, parent: string): (count: nat)
    decreases n
  {
    match n
    case Elem(name, _, ch) =>
      if name == "br" then 0
      else
        var own := if name == "sup" || (name == "a" && parent != "sup") then 1 else 0;
        own + RefCountSeq(ch, name)
    case _ => 0
  }

  function RefCountSeq(ns: seq<Node>, parent: string): (count: nat)
    decreases ns
  {
    if ns == [] then 0
    else RefCountSeq(ns[..|ns| - 1], parent) + RefCount(ns[|ns| - 1], parent)
  }

  /** The table holds exactly the ids 1 .. counter - 1. */
  ghost predicate Dense(acc: Acc) {
    acc.counter >= 1 && forall k :: k in acc.table <==> 1 <= k < acc.counter
  }

  /** Every entry of `acc` is still in `acc'`, with the same content. */
  ghost predicate Keeps(acc: Acc, acc': Acc) {
    forall k :: k in acc.table ==> k in acc'.table && acc'.table[k] == acc.table[k]
  }

  /**
   * Rendering a node consumes exactly `RefCount` ids, keeps the table dense
   * and never overwrites an entry made before it.
   */
  lemma {:induction false} RenderBookkeeping(n: Node, parent: string, acc: Acc)
    requires Dense(acc)
    ensures Render(n, parent, acc).acc.counter == acc.counter + RefCount(n, parent)
    ensures Dense(Render(n, parent, acc).acc)
    ensures Keeps(acc, Render(n, parent, acc).acc)
    decreases n
  {
    match n
    case Text(_) =>
    case Leaf =>
    case Elem(name, _, ch) =>
      if name != "br" {
        RenderSeqBookkeeping(ch, name, acc);
      }
  }

  lemma {:induction false} RenderSeqBookkeeping(ns: seq<Node>, parent: string, acc: Acc)
    requires Dense(acc)
    ensures RenderSeq(ns, parent, acc).acc.counter == acc.counter + RefCountSeq(ns, parent)
    ensures Dense(RenderSeq(ns, parent, acc).acc)
    ensures Keeps(acc, RenderSeq(ns, parent, acc).acc)
    decreases ns
  {
    if ns != [] {
      var front := RenderSeq(ns[..|ns| - 1], parent, acc);
      RenderSeqBookkeeping(ns[..|ns| - 1], parent, acc);
      RenderBookkeeping(ns[|ns| - 1], parent, front.acc);
    }
  }

  /**
   * The document's reference table: its keys are exactly 1 .. counter - 1
   * and the counter has advanced once for every qualifying node.
   */
  lemma DocumentTable(root: Node)
    ensures RenderDocument(root).acc.counter == 1 + RefCount(root, NoParent)
    ensures forall k :: k in RenderDocument(root).acc.table <==> 1 <= k <= RefCount(root, NoParent)
  {
    RenderBookkeeping(root, NoParent, Initial);
  }

  /**
   * An `a` outside a `sup`, or a `sup`, takes its id only after its
   * children are rendered: the id is the first one left over by the
   * children, so every id nested inside it is smaller.  The table maps it
   * to the children's text; the anchor emits that text and the marker, the
   * `sup` the marker alone.
   */
  lemma ReferenceTakesIdAfterChildren(name: string, attrs: seq<Attr>, ch: seq<Node>, parent: string, acc: Acc)
    requires name == "sup" || (name == "a" && parent != "sup")
    requires Dense(acc)
    ensures var o := Render(Elem(name, attrs, ch), parent, acc);
            var c := RenderSeq(ch, name, acc);
            var id := acc.counter + RefCountSeq(ch, name);
            && o.acc.counter == id + 1
            && id in o.acc.table && o.acc.table[id] == c.text
            && (forall k :: k in c.acc.table ==> k < id && o.acc.table[k] == c.acc.table[k])
            && o.text == (if name == "sup" then Marker(id) else c.text + Marker(id))
  {
    RenderSeqBookkeeping(ch, name, acc);
  }

  /**
   * An anchor directly inside a `sup` is its content: same text, same state,
   * and no id of its own.
   */
  lemma AnchorInMarkerTakesNoId(attrs: seq<Attr>, ch: seq<Node>, acc: Acc)
    requires Dense(acc)
    ensures Render(Elem("a", attrs, ch), "sup", acc) == RenderSeq(ch, "a", acc)
    ensures Render(Elem("a", attrs, ch), "sup", acc).acc.counter == acc.counter + RefCountSeq(ch, "a")
  {
    RenderSeqBookkeeping(ch, "a", acc);
  }

  /**
   * The usual footnote `<sup><a …>n</a></sup>` with reference-free anchor
   * content: the marker takes the next id, the table records the anchor's
   * text under it, even when that text is empty.
   */
  lemma FootnoteMarker(supAttrs: seq<Attr>, aAttrs: seq<Attr>, ch: seq<Node>, parent: string, acc: Acc)
    requires NoReferencesSeq(ch)
    ensures var o := Render(Elem("sup", supAttrs, [Elem("a", aAttrs, ch)]), parent, acc);
            && o.text == Marker(acc.counter)
            && o.acc == Claim(acc, RenderSeq(ch, "a", acc).text)
  {
    var inner := [Elem("a", aAttrs, ch)];
    assert inner[..0] == [];
    NoReferencesSeqKeepsState(ch, "a", acc);
    var t := RenderSeq(ch, "a", acc);
    assert Render(inner[0], "sup", acc) == t;
    assert RenderSeq(inner, "sup", acc) == Out("" + t.text, acc);
    assert "" + t.text == t.text;
  }

  // ---------------------------------------------------------------------
  // Trees without references
  // ---------------------------------------------------------------------

  /** A tree with no `a` and no `sup` consumes no id and adds nothing to the table. */
  lemma {:induction false} NoReferencesKeepsState(n: Node, parent: string, acc: Acc)
    requires NoReferences(n)
    ensures Render(n, parent, acc).acc == acc
    decreases n
  {
    match n
    case Text(_) =>
    case Leaf =>
    case Elem(name, _, ch) =>
      NoReferencesSeqKeepsState(ch, name, acc);
  }

  lemma {:induction false} NoReferencesSeqKeepsState(ns: seq<Node>, parent: string, acc: Acc)
    requires NoReferencesSeq(ns)
    ensures RenderSeq(ns, parent, acc).acc == acc
    decreases ns
  {
    if ns != [] {
      var front := ns[..|ns| - 1];
      assert NoReferencesSeq(front) by {
        forall i | 0 <= i < |front| ensures NoReferences(front[i]) {
          assert front[i] == ns[i];
        }
      }
      NoReferencesSeqKeepsState(ns[..|ns| - 1], parent, acc);
      NoReferencesKeepsState(ns[|ns| - 1], parent, acc);
    }
  }

  /** A document without anchors and markers has an empty table and an unmoved counter. */
  lemma NoReferencesEmptyTable(root: Node)
    requires NoReferences(root)
    ensures RenderDocument(root).acc.table == map[]
    ensures RenderDocument(root).acc.counter == 1
  {
    NoReferencesKeepsState(root, NoParent, Initial);
  }

  /**
   * In a tree without anchors, markers and headings the rendering adds
   * nothing but line breaks to the text content: it is the text content
   * with newlines inserted, so the two agree once newlines are taken out.
   * Headings are left out because they change the letters themselves.
   */
  lemma {:induction false} RenderIsTextContent(n: Node, parent: string, acc: Acc)
    requires NoReferences(n) && NoHeadings(n)
    ensures PostProcessing.NlAdded(TextContent(n), Render(n, parent, acc).text)
    ensures PostProcessing.WithoutNewlines(Render(n, parent, acc).text)
            == PostProcessing.WithoutNewlines(TextContent(n))
    decreases n
  {
    match n
    case Text(v) =>
      PostProcessing.NlAddedRefl(v);
    case Leaf =>
    case Elem(name, _, ch) =>
      if name == "br" {
        PostProcessing.NlAddedOfNewlines("\n");
      } else {
        RenderSeqIsTextContent(ch, name, acc);
        if name == "p" {
          var c := RenderSeq(ch, name, acc);
          PostProcessing.NlAddedOfNewlines("\n\n");
          PostProcessing.NlAddedAppend([], "\n\n", TextContentSeq(ch), c.text);
          assert [] + TextContentSeq(ch) == TextContentSeq(ch);
        }
      }
    PostProcessing.NlAddedKeepsText(TextContent(n), Render(n, parent, acc).text);
  }

  lemma {:induction false} RenderSeqIsTextContent(ns: seq<Node>, parent: string, acc: Acc)
    requires NoReferencesSeq(ns) && NoHeadingsSeq(ns)
    ensures PostProcessing.NlAdded(TextContentSeq(ns), RenderSeq(ns, parent, acc).text)
    decreases ns
  {
    if ns != [] {
      var front := ns[..|ns| - 1];
      var last := ns[|ns| - 1];
      assert NoReferencesSeq(front) && NoHeadingsSeq(front) by {
        forall i | 0 <= i < |front| ensures NoReferences(front[i]) && NoHeadings(front[i]) {
          assert front[i] == ns[i];
        }
      }
      var f := RenderSeq(front, parent, acc);
      RenderSeqIsTextContent(front, parent, acc);
      RenderIsTextContent(last, parent, f.acc);
      PostProcessing.NlAddedAppend(TextContentSeq(front), f.text, TextContent(last), Render(last, parent, f.acc).text);
    }
  }

  /**
   * A document without anchors, markers and headings: the plain text is its
   * text content with newlines inserted, and the table stays empty.
   */
  lemma PlainDocument(root: Node)
    requires NoReferences(root) && NoHeadings(root)
    ensures PostProcessing.NlAdded(TextContent(root), RenderDocument(root).text)
    ensures PostProcessing.WithoutNewlines(RenderDocument(root).text)
            == PostProcessing.WithoutNewlines(TextContent(root))
    ensures RenderDocument(root).acc.table == map[]
  {
    RenderIsTextContent(root, NoParent, Initial);
    NoReferencesEmptyTable(root);
  }

  // ---------------------------------------------------------------------
  // The per-kind rules, and what the rendering does not depend on
  // ---------------------------------------------------------------------

  /**
   * Text renders to its value, a childless non-text node to "", `br` to a
   * newline whatever its children, all three without touching the state;
   * `p` to two newlines and its children; an element with no rule of its
   * own to its children, joined.
   */
  lemma RenderRules(n: Node, parent: string, acc: Acc)
    ensures n.Text? ==> Render(n, parent, acc) == Out(n.value, acc)
    ensures n.Leaf? ==> Render(n, parent, acc) == Out("", acc)
    ensures n.Elem? && n.name == "br" ==> Render(n, parent, acc) == Out("\n", acc)
    ensures n.Elem? && n.name == "p" ==>
              var c := RenderSeq(n.children, "p", acc);
              Render(n, parent, acc) == Out("\n\n" + c.text, c.acc)
    ensures n.Elem? && n.name !in {"a", "sup", "p", "br"} && !IsHeadingName(n.name) ==>
              Render(n, parent, acc) == RenderSeq(n.children, n.name, acc)
  {
  }

  /**
   * A heading renders to its children's text in bold between blank lines:
   * every ASCII letter shifted, everything else kept, no character added.
   */
  lemma HeadingRule(name: string, attrs: seq<Attr>, ch: seq<Node>, parent: string, acc: Acc)
    requires IsHeadingName(name)
    ensures var o := Render(Elem(name, attrs, ch), parent, acc);
            var c := RenderSeq(ch, name, acc);
            && o.acc == c.acc
            && |o.text| == |c.text| + 4
            && o.text[..2] == "\n\n" && o.text[|o.text| - 2..] == "\n\n"
            && (forall i :: 0 <= i < |c.text| ==> o.text[i + 2] == BoldChar(c.text[i]))
  {
    var c := RenderSeq(ch, name, acc);
    var o := Render(Elem(name, attrs, ch), parent, acc);
    assert o.text == "\n\n" + Bold(c.text) + "\n\n";
    forall i | 0 <= i < |c.text| ensures o.text[i + 2] == BoldChar(c.text[i]) {
      assert o.text[i + 2] == Bold(c.text)[i];
    }
  }

  /**
   * Attributes play no part in the rendering: an anchor without `href` is
   * numbered like any other.
   */
  lemma {:induction false} RenderIgnoresAttrs(n: Node, parent: string, acc: Acc)
    ensures Render(EraseAttrs(n), parent, acc) == Render(n, parent, acc)
    decreases n
  {
    match n
    case Text(_) =>
    case Leaf =>
    case Elem(name, _, ch) =>
      RenderSeqIgnoresAttrs(ch, name, acc);
  }

  lemma {:induction false} RenderSeqIgnoresAttrs(ns: seq<Node>, parent: string, acc: Acc)
    ensures RenderSeq(EraseAttrsSeq(ns), parent, acc) == RenderSeq(ns, parent, acc)
    decreases ns
  {
    if ns != [] {
      var e := EraseAttrsSeq(ns);
      assert e[..|e| - 1] == EraseAttrsSeq(ns[..|ns| - 1]);
      RenderSeqIgnoresAttrs(ns[..|ns| - 1], parent, acc);
      RenderIgnoresAttrs(ns[|ns| - 1], parent, RenderSeq(ns[..|ns| - 1], parent, acc).acc);
    }
  }

  // ---------------------------------------------------------------------
  // The walk as the source runs it: mutable counter and table
  // ---------------------------------------------------------------------

  /** The closure of one `processClipboard` call: `counter` and `referenceMap`. */
  class Renderer {
    var counter: nat
    var table: map<nat, string>

    function State(): (s: Acc)
      reads this
    {
      Acc(counter, table)
    }

    constructor ()
      ensures State() == Initial
    {
      counter := 1;
      table := map[];
    }

    /** `processNodePlainText(node)`. */
    method RenderNode(n: Node, parent: string) returns (s: string)
      modifies this
      ensures Out(s, State()) == Render(n, parent, old(State()))
      decreases n
    {
      match n
      case Text(v) =>
        s := v;
      case Leaf =>
        s := "";
      case Elem(name, _, ch) =>
        if name == "a" {
          var content := RenderChildren(ch, name);
          if parent != "sup" {
            table := table[counter := content];
            s := content + Marker(counter);
            counter := counter + 1;
          } else {
            s := content;
          }
        } else if name == "sup" {
          var content := RenderChildren(ch, name);
          table := table[counter := content];
          s := Marker(counter);
          counter := counter + 1;
        } else if name == "p" {
          var content := RenderChildren(ch, name);
          s := "\n\n" + content;
        } else if name == "br" {
          s := "\n";
        } else if IsHeadingName(name) {
          var content := RenderChildren(ch, name);
          s := "\n\n" + Bold(content) + "\n\n";
        } else {
          s := RenderChildren(ch, name);
        }
    }

    /** `node.childNodes.map(processNodePlainText).join("")`. */
    method RenderChildren(ns: seq<Node>, parent: string) returns (s: string)
      modifies this
      ensures Out(s, State()) == RenderSeq(ns, parent, old(State()))
      decreases ns
    {
      s := "";
      var i := 0;
      assert ns[..0] == [];
      while i < |ns|
        invariant 0 <= i <= |ns|
        invariant Out(s, State()) == RenderSeq(ns[..i], parent, old(State()))
      {
        var part := RenderNode(ns[i], parent);
        assert ns[..i + 1][..i] == ns[..i];
        s := s + part;
        i := i + 1;
      }
      assert ns[..|ns|] == ns;
    }
  }
}
