/**
 * The footnote rewriter of the content processor (`processNodeFormatted`):
 * every `sup` becomes an attribute-less `span`, and every anchor directly
 * inside a `sup` loses its `class` and `rel` attributes and has its content
 * put between `[` and `]`.
 */
module Footnotes {
  import opened Markup

  /** The attributes a footnote anchor keeps: all but `class` and `rel`. */
  predicate KeepAttr(a: Attr) {
    a.name != "class" && a.name != "rel"
  }

  /** `attrs.filter(attr => attr.name !== "class" && attr.name !== "rel")`. */
  function FilterAttrs(attrs: seq<Attr>): (r: seq<Attr>)
    ensures |r| <= |attrs|
    ensures forall a :: a in r <==> a in attrs && KeepAttr(a)
  {
    if attrs == [] then []
    else (if KeepAttr(attrs[0]) then [attrs[0]] else []) + FilterAttrs(attrs[1..])
  }

  /** The filter keeps order: filtering a concatenation concatenates the filtered parts. */
  lemma {:induction false} FilterAttrsAppend(a: seq<Attr>, b: seq<Attr>)
    ensures FilterAttrs(a + b) == FilterAttrs(a) + FilterAttrs(b)
    decreases |a|
  {
    if a == [] {
      assert a + b == b;
    } else {
      assert (a + b)[1..] == a[1..] + b;
      FilterAttrsAppend(a[1..], b);
    }
  }

  /** A list without `class` and `rel` is kept whole. */
  lemma {:induction false} FilterAttrsKeepsOthers(a: seq<Attr>)
    requires forall i :: 0 <= i < |a| ==> KeepAttr(a[i])
    ensures FilterAttrs(a) == a
    decreases |a|
  {
    if a != [] {
      FilterAttrsKeepsOthers(a[1..]);
    }
  }

  /** The rewritten node `n`, whose parent in the original tree is named `parent`. */
  function Rewrite(n: Node, parent: string): (r: Node)
    ensures r.Elem? <==> n.Elem?
    ensures !n.Elem? ==> r == n
    ensures n.Elem? && n.name == "sup" ==> r.name == "span" && r.attrs == []
    ensures n.Elem? && n.name != "sup" ==> r.name == n.name
    decreases n
  {
    match n
    case Text(_) => n
    case Leaf => n
    case Elem(name, attrs, ch) =>
      if name == "sup" then Elem("span", [], RewriteSeq(ch, name))
      else if name == "a" && parent == "sup" then
        Elem(name, FilterAttrs(attrs), [Text("[")] + ch + [Text("]")])
      else Elem(name, attrs, RewriteSeq(ch, name))
  }

  /** `node.childNodes.map(processNodeFormatted)`. */
  function RewriteSeq(ns: seq<Node>, parent: string): (r: seq<Node>)
    ensures |r| == |ns|
    decreases ns
  {
    if ns == [] then [] else [Rewrite(ns[0], parent)] + RewriteSeq(ns[1..], parent)
  }

  lemma {:induction false} RewriteSeqAt(ns: seq<Node>, parent: string, i: nat)
    requires i < |ns|
    ensures RewriteSeq(ns, parent)[i] == Rewrite(ns[i], parent)
    decreases ns
  {
    if i > 0 {
      RewriteSeqAt(ns[1..], parent, i - 1);
    }
  }

  /**
   * A `sup` becomes a `span` without attributes whose children are the
   * rewritten children of the `sup`; an anchor inside a `sup` keeps its
   * name and its other attributes in order, and its children, left as they
   * were, between the texts "[" and "]"; any other element keeps its name and
   * attributes and has its children rewritten.
   */
  lemma RewriteRules(name: string, attrs: seq<Attr>, ch: seq<Node>, parent: string)
    ensures var r := Rewrite(Elem(name, attrs, ch), parent);
            && r.Elem?
            && |r.children| == (if name == "a" && parent == "sup" then |ch| + 2 else |ch|)
            && (name == "sup" ==>
                  r.name == "span" && r.attrs == []
                  && forall i :: 0 <= i < |ch| ==> r.children[i] == Rewrite(ch[i], "sup"))
            && (name == "a" && parent == "sup" ==>
                  r.name == "a" && r.attrs == FilterAttrs(attrs)
                  && r.children[0] == Text("[") && r.children[|ch| + 1] == Text("]")
                  && r.children[1..|ch| + 1] == ch)
            && (name != "sup" && !(name == "a" && parent == "sup") ==>
                  r.name == name && r.attrs == attrs
                  && forall i :: 0 <= i < |ch| ==> r.children[i] == Rewrite(ch[i], name))
  {
    var r := Rewrite(Elem(name, attrs, ch), parent);
    if name == "sup" {
      forall i | 0 <= i < |ch| ensures r.children[i] == Rewrite(ch[i], "sup") {
        RewriteSeqAt(ch, "sup", i);
      }
    } else if name == "a" && parent == "sup" {
      assert r.children == [Text("[")] + ch + [Text("]")];
    } else {
      forall i | 0 <= i < |ch| ensures r.children[i] == Rewrite(ch[i], name) {
        RewriteSeqAt(ch, name, i);
      }
    }
  }

  /** On a tree with no `sup` the rewrite changes nothing. */
  lemma {:induction false} RewriteWithoutSupIsIdentity(n: Node, parent: string)
    requires NoSup(n)
    requires parent != "sup"
    ensures Rewrite(n, parent) == n
    decreases n
  {
    match n
    case Text(_) =>
    case Leaf =>
    case Elem(name, _, ch) =>
      RewriteSeqWithoutSupIsIdentity(ch, name);
  }

  lemma {:induction false} RewriteSeqWithoutSupIsIdentity(ns: seq<Node>, parent: string)
    requires NoSupSeq(ns)
    requires parent != "sup"
    ensures RewriteSeq(ns, parent) == ns
    decreases ns
  {
    if ns != [] {
      RewriteWithoutSupIsIdentity(ns[0], parent);
      assert NoSupSeq(ns[1..]) by {
        forall i | 0 <= i < |ns[1..]| ensures NoSup(ns[1..][i]) {
          assert ns[1..][i] == ns[i + 1];
        }
      }
      RewriteSeqWithoutSupIsIdentity(ns[1..], parent);
    }
  }

  /**
   * The parts of the tree the rewrite leaves as they are, the content of
   * anchors directly inside a `sup`, hold no `sup`.
   */
  predicate FootnoteContentSupFree(n: Node, parent: string)
    decreases n
  {
    match n
    case Elem(name, _, ch) =>
      if name == "a" && parent == "sup" then NoSupSeq(ch)
      else forall i :: 0 <= i < |ch| ==> FootnoteContentSupFree(ch[i], name)
    case _ => true
  }

  /** Then no `sup` is left after the rewrite. */
  lemma {:induction false} RewriteRemovesSup(n: Node, parent: string)
    requires FootnoteContentSupFree(n, parent)
    ensures NoSup(Rewrite(n, parent))
    decreases n
  {
    match n
    case Text(_) =>
    case Leaf =>
    case Elem(name, attrs, ch) =>
      if name == "a" && parent == "sup" {
        var r := Rewrite(n, parent);
        forall i | 0 <= i < |r.children| ensures NoSup(r.children[i]) {
          if 0 < i < |ch| + 1 {
            assert r.children[i] == ch[i - 1];
          }
        }
      } else {
        var r := Rewrite(n, parent);
        forall i | 0 <= i < |ch| ensures NoSup(r.children[i]) {
          RewriteSeqAt(ch, name, i);
          RewriteRemovesSup(ch[i], name);
        }
      }
  }

  /** And a second rewrite of the result changes nothing more. */
  lemma RewriteIdempotent(n: Node, parent: string)
    requires FootnoteContentSupFree(n, parent)
    requires parent != "sup"
    ensures Rewrite(Rewrite(n, parent), parent) == Rewrite(n, parent)
  {
    RewriteRemovesSup(n, parent);
    RewriteWithoutSupIsIdentity(Rewrite(n, parent), parent);
  }
}
