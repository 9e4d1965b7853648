/** The parsed page, as BeautifulSoup hands it to the detector, and the three
    tree queries the detector uses: `find_all(string=f)` on the whole
    document, `find_parent(names)` from a string node, and
    `find_all(name, class_=f)` below a tag. */
module Dom {
  import opened Strings

  datatype Option<T> = None | Some(value: T)

  /** A node of the parsed tree. `classes` is the multi-valued `class`
      attribute (empty when absent); `attrs` holds every other attribute.
      Equality of two values is bs4's `Tag.__eq__`: same name, same
      attributes, equal children in order. */
  datatype Node =
    | Text(text: string)
    | Element(name: string, classes: seq<string>, attrs: map<string, string>, children: seq<Node>)

  /** The name bs4 gives the document root. */
  const DocumentName := "[document]"

  /** The `BeautifulSoup` object for a parsed page whose top-level nodes are `contents`. */
  function Soup(contents: seq<Node>): Node
  {
    Element(DocumentName, [], map[], contents)
  }

  function Children(n: Node): seq<Node>
  {
    if n.Element? then n.children else []
  }

  /** A string node found in the document, with the chain of its ancestors:
      `parents[0]` is the document root and the last entry is the
      element that directly holds the text. */
  datatype StringNode = StringNode(text: string, parents: seq<Node>)

  /** The string nodes among `nodes` and their descendants, in document
      order, each with `parents` followed by its ancestors inside `nodes`. */
  function StringsIn(nodes: seq<Node>, parents: seq<Node>): seq<StringNode>
    decreases nodes
  {
    if nodes == [] then []
    else
      var head := match nodes[0]
        case Text(s) => [StringNode(s, parents)]
        case Element(_, _, _, kids) => StringsIn(kids, parents + [nodes[0]]);
      head + StringsIn(nodes[1..], parents)
  }

  /** Every proper descendant of the nodes' parent, in document (pre-)order. */
  function Descendants(nodes: seq<Node>): seq<Node>
    decreases nodes
  {
    if nodes == [] then []
    else
      var below := match nodes[0]
        case Text(_) => []
        case Element(_, _, _, kids) => Descendants(kids);
      [nodes[0]] + below + Descendants(nodes[1..])
  }

  /** The string nodes of `strs` whose text satisfies `f`, in order. */
  function SelectStrings(strs: seq<StringNode>, f: string -> bool): (r: seq<StringNode>)
    ensures |r| <= |strs|
    ensures forall s :: s in r <==> s in strs && f(s.text)
    ensures (forall s :: s in strs ==> !f(s.text)) ==> r == []
  {
    if strs == [] then []
    else (if f(strs[0].text) then [strs[0]] else []) + SelectStrings(strs[1..], f)
  }

  /** `doc.find_all(string=f)`: the string nodes of the document, in order, whose text satisfies `f`. */
  function FindAllStrings(root: Node, f: string -> bool): seq<StringNode>
  {
    SelectStrings(StringsIn(Children(root), [root]), f)
  }

  predicate HasName(n: Node, names: seq<string>)
  {
    n.Element? && n.name in names
  }

  /** `string_node.find_parent(names)`: the nearest ancestor whose tag name is
      one of `names`, or None. The walk starts at the direct parent, so the
      string node itself is never a candidate. */
  function FindParent(parents: seq<Node>, names: seq<string>): (r: Option<Node>)
    ensures r.None? <==> forall j :: 0 <= j < |parents| ==> !HasName(parents[j], names)
    ensures r.Some? ==>
      exists i :: 0 <= i < |parents| && parents[i] == r.value && HasName(parents[i], names) &&
        forall j :: i < j < |parents| ==> !HasName(parents[j], names)
    decreases |parents|
  {
    if parents == [] then None
    else
      var p := parents[|parents| - 1];
      if HasName(p, names) then Some(p)
      else FindParent(parents[..|parents| - 1], names)
  }

  /** bs4's test of a `class_` function against a multi-valued attribute:
      the function is tried on each token, then on the space-joined value. */
  predicate ClassMatches(classes: seq<string>, f: string -> bool)
  {
    (exists i :: 0 <= i < |classes| && f(classes[i])) || f(Join(classes))
  }

  /** A tag matching `find_all(name, class_=f)`; `name` None means any tag. */
  predicate TagMatches(n: Node, name: Option<string>, f: string -> bool)
  {
    n.Element? && (name.None? || n.name == name.value) && ClassMatches(n.classes, f)
  }

  /** The tags among `nodes` that match `name` and `f`, in order; a matching
      node listed k times in `nodes` is listed k times in the result
      (`SelectTagsMultiplicity`). */
  function SelectTags(nodes: seq<Node>, name: Option<string>, f: string -> bool): (r: seq<Node>)
    ensures |r| <= |nodes|
    ensures forall n :: n in r <==> n in nodes && TagMatches(n, name, f)
  {
    if nodes == [] then []
    else (if TagMatches(nodes[0], name, f) then [nodes[0]] else []) + SelectTags(nodes[1..], name, f)
  }

  /** Selection keeps every occurrence of a matching node and drops every
      occurrence of any other. */
  lemma {:induction false} SelectTagsMultiplicity(nodes: seq<Node>, name: Option<string>, f: string -> bool, n: Node)
    ensures multiset(SelectTags(nodes, name, f))[n] == if TagMatches(n, name, f) then multiset(nodes)[n] else 0
  {
    if nodes != [] {
      SelectTagsMultiplicity(nodes[1..], name, f, n);
      assert nodes == [nodes[0]] + nodes[1..];
    }
  }

  /** `tag.find_all(name, class_=f)`: the matching proper descendants of `tag`, in document order. */
  function FindAll(tag: Node, name: Option<string>, f: string -> bool): seq<Node>
  {
    SelectTags(Descendants(Children(tag)), name, f)
  }

  function Size(n: Node): nat
  {
    match n
    case Text(_) => 1
    case Element(_, _, _, kids) => 1 + SizeAll(kids)
  }

  function SizeAll(nodes: seq<Node>): nat
    decreases nodes
  {
    if nodes == [] then 0 else Size(nodes[0]) + SizeAll(nodes[1..])
  }

  /** A descendant is never larger than the forest it comes from. */
  lemma {:induction false} DescendantSize(nodes: seq<Node>, d: Node)
    requires d in Descendants(nodes)
    ensures Size(d) <= SizeAll(nodes)
    decreases nodes
  {
    var below := match nodes[0]
      case Text(_) => []
      case Element(_, _, _, kids) => Descendants(kids);
    if d == nodes[0] {
    } else if d in below {
      DescendantSize(nodes[0].children, d);
    } else {
      DescendantSize(nodes[1..], d);
    }
  }

  /** No tag is among its own proper descendants, so `tag.find_all(...)`
      never returns `tag` itself. */
  lemma NotOwnDescendant(tag: Node)
    ensures tag !in Descendants(Children(tag))
  {
    if tag in Descendants(Children(tag)) {
      DescendantSize(Children(tag), tag);
    }
  }
}
