/**
 * The markup tree both passes of the content processor walk: the shape the
 * HTML parser hands over, taken here as already parsed.
 */
module Markup {

  /** One attribute of an element: a name and a value, kept in source order. */
  datatype Attr = Attr(name: string, value: string)

  /**
   * A node of the tree.  `Text` is a `#text` node; `Elem` an element with its
   * tag name (the document root is the element "#document"); `Leaf` a node
   * that is neither and has no children, such as a comment or a doctype.
   */
  datatype Node =
    | Text(value: string)
    | Elem(name: string, attrs: seq<Attr>, children: seq<Node>)
    | Leaf

  /** The parent name handed to the root: no element is named "". */
  const NoParent: string := ""

  /** The tag names the heading rule applies to: `/^h[1-6]$/`. */
  predicate IsHeadingName(name: string) {
    |name| == 2 && name[0] == 'h' && '1' <= name[1] <= '6'
  }

  /** No `a` and no `sup` element occurs anywhere in the tree. */
  predicate NoReferences(n: Node) {
    match n
    case Elem(name, _, ch) =>
      name != "a" && name != "sup" && NoReferencesSeq(ch)
    case _ => true
  }

  predicate NoReferencesSeq(ns: seq<Node>) {
    forall i :: 0 <= i < |ns| ==> NoReferences(ns[i])
  }

  /** No `sup` element occurs anywhere in the tree. */
  predicate NoSup(n: Node) {
    match n
    case Elem(name, _, ch) => name != "sup" && NoSupSeq(ch)
    case _ => true
  }

  predicate NoSupSeq(ns: seq<Node>) {
    forall i :: 0 <= i < |ns| ==> NoSup(ns[i])
  }

  /** No heading element (`h1` .. `h6`) occurs anywhere in the tree. */
  predicate NoHeadings(n: Node) {
    match n
    case Elem(name, _, ch) => !IsHeadingName(name) && NoHeadingsSeq(ch)
    case _ => true
  }

  predicate NoHeadingsSeq(ns: seq<Node>) {
    forall i :: 0 <= i < |ns| ==> NoHeadings(ns[i])
  }

  /**
   * The text of the tree: the values of its text nodes in document order,
   * leaving out whatever lies inside a `br`.
   */
  function TextContent(n: Node): (r: string) {
    match n
    case Text(v) => v
    case Leaf => ""
    case Elem(name, _, ch) => if name == "br" then "" else TextContentSeq(ch)
  }

  function TextContentSeq(ns: seq<Node>): (r: string) {
    if ns == [] then ""
    else TextContentSeq(ns[..|ns| - 1]) + TextContent(ns[|ns| - 1])
  }

  /** The same tree with every attribute list emptied. */
  function EraseAttrs(n: Node): (r: Node)
    ensures r.Elem? <==> n.Elem?
    ensures r.Elem? ==> r.name == n.name && r.attrs == [] && |r.children| == |n.children|
  {
    match n
    case Elem(name, _, ch) => Elem(name, [], EraseAttrsSeq(ch))
    case _ => n
  }

  function EraseAttrsSeq(ns: seq<Node>): (r: seq<Node>)
    ensures |r| == |ns|
    ensures forall i :: 0 <= i < |ns| ==> r[i] == EraseAttrs(ns[i])
  {
    if ns == [] then [] else [EraseAttrs(ns[0])] + EraseAttrsSeq(ns[1..])
  }
}
