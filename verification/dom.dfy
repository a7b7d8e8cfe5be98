/**
 * A value model of the part of the browser DOM that the block decorators
 * touch: text nodes and elements with a tag, a class name, attributes and
 * an ordered list of child nodes. The block element a decorator receives is
 * the one object whose children change in place.
 */
module Dom {

  /**
   * A node. The `children` of an element are ALL its child nodes, text
   * included (the DOM's `childNodes`); the DOM's element-only `children`
   * list is `ElementChildren`.
   */
  datatype Node =
    | Text(text: string)
    | Element(tag: string, className: string, attrs: map<string, string>, children: seq<Node>)

  /** An element with no class and no attributes. */
  function Plain(tag: string, children: seq<Node>): Node {
    Element(tag, "", map[], children)
  }

  /** The children that assigning `s` to `textContent` leaves: none for the empty string. */
  function TextContent(s: string): seq<Node> {
    if s == "" then [] else [Text(s)]
  }

  /** The element nodes of `s`, in order (what `children` lists, as opposed to `childNodes`). */
  function Elements(s: seq<Node>): (r: seq<Node>)
    ensures |r| <= |s|
    ensures forall i :: 0 <= i < |r| ==> r[i].Element?
  {
    if s == [] then []
    else if s[0].Element? then [s[0]] + Elements(s[1..])
    else Elements(s[1..])
  }

  /** The nodes of `s` that are not elements, in order. */
  function NonElements(s: seq<Node>): (r: seq<Node>)
    ensures |r| <= |s|
    ensures forall i :: 0 <= i < |r| ==> !r[i].Element?
  {
    if s == [] then []
    else if s[0].Element? then NonElements(s[1..])
    else [s[0]] + NonElements(s[1..])
  }

  /** `el.children`: the element children of a node; a text node has none. */
  function ElementChildren(n: Node): seq<Node> {
    if n.Element? then Elements(n.children) else []
  }

  /** `firstElementChild` as a position: the first element of `s`, or `|s|` when there is none. */
  function FirstElementIndex(s: seq<Node>): (k: nat)
    ensures k <= |s|
    ensures k < |s| ==> s[k].Element?
    ensures forall j :: 0 <= j < k ==> !s[j].Element?
  {
    if s == [] then 0
    else if s[0].Element? then 0
    else 1 + FirstElementIndex(s[1..])
  }

  /** `n.querySelector(tag) != null`: some descendant of `n` (not `n` itself) has the tag. */
  predicate HasDescendant(n: Node, tag: string)
    decreases n
  {
    n.Element? &&
    exists i :: 0 <= i < |n.children| &&
      n.children[i].Element? &&
      (n.children[i].tag == tag || HasDescendant(n.children[i], tag))
  }

  /** `el.className = cls`: replaces the whole class list; a text node has none. */
  function WithClass(n: Node, cls: string): Node {
    if n.Element? then n.(className := cls) else n
  }

  lemma {:induction false} ElementsAppend(a: seq<Node>, b: seq<Node>)
    ensures Elements(a + b) == Elements(a) + Elements(b)
    ensures NonElements(a + b) == NonElements(a) + NonElements(b)
  {
    if a != [] {
      assert (a + b)[1..] == a[1..] + b;
      ElementsAppend(a[1..], b);
    } else {
      assert a + b == b;
    }
  }

  /** Taking out the first element of `s` removes the head of `Elements(s)` and no other node. */
  lemma {:induction false} RemoveFirstElement(s: seq<Node>, k: nat)
    requires k < |s| && s[k].Element?
    requires forall j :: 0 <= j < k ==> !s[j].Element?
    ensures Elements(s) == [s[k]] + Elements(s[..k] + s[k + 1..])
    ensures NonElements(s) == NonElements(s[..k] + s[k + 1..])
  {
    var pre, tail := s[..k], [s[k]] + s[k + 1..];
    NoElements(pre);
    assert s == pre + tail;
    ElementsAppend(pre, tail);
    ElementsAppend(pre, s[k + 1..]);
    assert tail[0] == s[k] && tail[1..] == s[k + 1..];
    assert Elements(tail) == [s[k]] + Elements(s[k + 1..]);
    assert NonElements(tail) == NonElements(s[k + 1..]);
  }

  /** A sequence without elements contributes nothing to `Elements` and all of itself to `NonElements`. */
  lemma {:induction false} NoElements(s: seq<Node>)
    requires forall j :: 0 <= j < |s| ==> !s[j].Element?
    ensures Elements(s) == []
    ensures NonElements(s) == s
  {
    if s != [] {
      NoElements(s[1..]);
    }
  }

  /** After the non-elements are kept, no element is left. */
  lemma {:induction false} NonElementsHaveNoElements(s: seq<Node>)
    ensures Elements(NonElements(s)) == []
  {
    NoElements(NonElements(s));
  }

  /** The block element a decorator receives; its child nodes (`childNodes`) change in place. */
  class Block {
    var children: seq<Node>

    constructor (children: seq<Node>)
      ensures this.children == children
    {
      this.children := children;
    }
  }
}
