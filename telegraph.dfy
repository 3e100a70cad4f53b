/**
 * The conversion of parsed HTML to Telegraph page nodes in src/catgpt/share/telegraph.py
 * (`_md_to_dom` and its `parse_element`). The markdown and HTML parsing before it belongs
 * to foreign libraries; the model starts from the parsed tree.
 */
module Telegraph {
  import opened Wrappers
  import opened PyStr

  /** A parsed HTML node: a string, or an element with its attributes and contents. */
  datatype Html =
    | Text(s: string)
    | Element(name: string, attrs: map<string, string>, contents: seq<Html>)

  /**
   * A Telegraph node as the source builds it: a bare string child, the top-level
   * `{"tag": "text", "content": ...}` dict, or a tag dict whose "attributes" and "children"
   * keys may be absent.
   */
  datatype Node =
    | Str(value: string)
    | TextTag(content: string)
    | Tag(tag: string, attributes: Option<map<string, string>>, children: Option<seq<Node>>)

  predicate IsHeading(name: string) {
    name in ["h1", "h2", "h3", "h4", "h5", "h6"]
  }

  /** Lines 199-205: h1 becomes h3, h2 becomes h4, the other headings become paragraphs. */
  function TagOf(name: string): (t: string)
    ensures name == "h1" ==> t == "h3"
    ensures name == "h2" ==> t == "h4"
    ensures IsHeading(name) && name != "h1" && name != "h2" ==> t == "p"
    ensures !IsHeading(name) ==> t == name
  {
    if name == "h1" then "h3"
    else if name == "h2" then "h4"
    else if IsHeading(name) then "p"
    else name
  }

  /** The "attributes" key: present only for a non-empty attribute dict (lines 210-211, 221-222). */
  function AttributesOf(attrs: map<string, string>): (a: Option<map<string, string>>)
    ensures a.Some? <==> attrs != map[]
    ensures a.Some? ==> a.value == attrs
  {
    if attrs == map[] then None else Some(attrs)
  }

  /** The node of an element, as `parse_element` builds it. */
  function ElementNode(e: Html): (n: Node)
    requires e.Element?
    decreases e, 1
    ensures n.Tag? && n.tag == TagOf(e.name) && n.attributes == AttributesOf(e.attrs)
    ensures e.contents != [] ==> n.children == Some(ChildNodes(e, |e.contents|))
    ensures e.contents == [] && IsHeading(e.name) && e.name != "h1" && e.name != "h2" ==>
      n.children == Some([Tag("strong", None, Some([]))])
    ensures e.contents == [] && !(IsHeading(e.name) && e.name != "h1" && e.name != "h2") ==> n.children == None
  {
    var children :=
      if e.contents != [] then Some(ChildNodes(e, |e.contents|))
      else if IsHeading(e.name) && e.name != "h1" && e.name != "h2" then Some([Tag("strong", None, Some([]))])
      else None;
    Tag(TagOf(e.name), AttributesOf(e.attrs), children)
  }

  /** The converted first `k` contents of `e`: strings stripped, elements converted. */
  function ChildNodes(e: Html, k: nat): (cs: seq<Node>)
    requires e.Element? && k <= |e.contents|
    decreases e, 0, k
    ensures |cs| == k
    ensures forall i :: 0 <= i < k ==> cs[i] == ChildNode(e, i)
  {
    if k == 0 then [] else ChildNodes(e, k - 1) + [ChildNode(e, k - 1)]
  }

  /** Lines 213-219 and 224-229: one child node per content. */
  function ChildNode(e: Html, i: nat): (c: Node)
    requires e.Element? && i < |e.contents|
    decreases e, 0, 0
    ensures e.contents[i].Text? ==> c == Str(Strip(e.contents[i].s))
    ensures e.contents[i].Element? ==> c == ElementNode(e.contents[i])
  {
    var child := e.contents[i];
    assert child < e;
    match child
    case Text(s) => Str(Strip(s))
    case Element(_, _, _) => ElementNode(child)
  }

  /** Lines 197-232 (`parse_element`): the dict is filled in by assignments and the children by a loop. */
  method ParseElement(e: Html) returns (n: Node)
    requires e.Element?
    decreases e
    ensures n == ElementNode(e)
  {
    var tag := TagOf(e.name);
    var children: Option<seq<Node>> := None;
    if IsHeading(e.name) && e.name != "h1" && e.name != "h2" {
      children := Some([Tag("strong", None, Some([]))]);
    }
    var attributes := AttributesOf(e.attrs);
    if e.contents != [] {
      var converted: seq<Node> := [];
      for i := 0 to |e.contents|
        invariant converted == ChildNodes(e, i)
      {
        var child := e.contents[i];
        assert child < e;
        if child.Text? {
          converted := converted + [Str(Strip(child.s))];
        } else {
          var node := ParseElement(child);
          converted := converted + [node];
        }
      }
      children := Some(converted);
    }
    n := Tag(tag, attributes, children);
  }

  predicate Blank(h: Html) {
    h.Text? && Strip(h.s) == []
  }

  /** Lines 234-241, for one top-level node: blank strings give no node. */
  function TopNodes(dom: seq<Html>): (r: seq<Node>)
    ensures |r| <= |dom|
  {
    if dom == [] then []
    else
      var h := dom[|dom| - 1];
      TopNodes(dom[..|dom| - 1])
        + if Blank(h) then [] else if h.Text? then [TextTag(Strip(h.s))] else [ElementNode(h)]
  }

  /** Lines 234-243: the page nodes of the parsed document. */
  method MdToDom(dom: seq<Html>) returns (newDom: seq<Node>)
    ensures newDom == TopNodes(dom)
  {
    newDom := [];
    for i := 0 to |dom|
      invariant newDom == TopNodes(dom[..i])
    {
      assert dom[..i + 1][..i] == dom[..i];
      var element := dom[i];
      if element.Text? && Strip(element.s) == [] {
        continue;
      } else if element.Text? {
        newDom := newDom + [TextTag(Strip(element.s))];
      } else {
        var node := ParseElement(element);
        newDom := newDom + [node];
      }
    }
    assert dom[..|dom|] == dom;
  }

  /** Conversion works part by part: the nodes of a document are those of its pieces, in order. */
  lemma {:induction false} TopNodesAppend(a: seq<Html>, b: seq<Html>)
    ensures TopNodes(a + b) == TopNodes(a) + TopNodes(b)
    decreases |b|
  {
    if b == [] {
      assert a + b == a;
    } else {
      var n := |b| - 1;
      assert (a + b)[..|a + b| - 1] == a + b[..n];
      TopNodesAppend(a, b[..n]);
    }
  }

  /** Every node that is not a blank string gives exactly one page node, and no text node is empty. */
  lemma {:induction false} TopNodesCount(dom: seq<Html>)
    ensures (forall i :: 0 <= i < |dom| ==> !Blank(dom[i])) ==> |TopNodes(dom)| == |dom|
    ensures forall j :: 0 <= j < |TopNodes(dom)| && TopNodes(dom)[j].TextTag? ==> TopNodes(dom)[j].content != []
  {
    if dom != [] {
      TopNodesCount(dom[..|dom| - 1]);
    }
  }
}
