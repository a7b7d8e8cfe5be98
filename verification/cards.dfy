/**
 * The card-list decorator (blocks/cards/cards.js). Every row of the block
 * becomes one list item: the row's element children move into the item in
 * order, a link labelled with the `click` placeholder is appended, and each
 * child of the item is classed as the image region or the body region by its
 * shape. The block's content is then replaced by the list.
 */
module Cards {
  import opened Dom

  const ImageClass: string := "cards-card-image"
  const BodyClass: string := "cards-card-body"

  /** The link appended to every card: `href="#"`, text the `click` placeholder. */
  function Link(click: string): Node {
    Element("a", "", map["href" := "#"], TextContent(click))
  }

  /** The shape test: exactly one element child, and a `picture` somewhere below. */
  predicate IsImageRegion(n: Node) {
    |ElementChildren(n)| == 1 && HasDescendant(n, "picture")
  }

  /** The class the loop over the item's children assigns to `n`. */
  function ClassFor(n: Node): string {
    if IsImageRegion(n) then ImageClass else BodyClass
  }

  /** The item's children after the class loop. */
  function Classified(s: seq<Node>): seq<Node> {
    seq(|s|, i requires 0 <= i < |s| => WithClass(s[i], ClassFor(s[i])))
  }

  /** The list item a row turns into. */
  function Card(row: Node, click: string): Node {
    Plain("li", Classified(ElementChildren(row) + [Link(click)]))
  }

  /** The row once its element children have moved out. */
  function Emptied(row: Node): Node {
    if row.Element? then row.(children := NonElements(row.children)) else row
  }

  /**
   * `while (row.firstElementChild) li.append(row.firstElementChild)`:
   * the element children leave the row's child nodes `kids` one at a time, first one first.
   */
  method MoveElementChildren(kids: seq<Node>) returns (moved: seq<Node>, left: seq<Node>)
    ensures moved == Elements(kids)
    ensures left == NonElements(kids)
    ensures Elements(left) == []
  {
    moved, left := [], kids;
    var k := FirstElementIndex(left);
    while k < |left|
      invariant k == FirstElementIndex(left)
      invariant Elements(kids) == moved + Elements(left)
      invariant NonElements(kids) == NonElements(left)
      decreases |left|
    {
      RemoveFirstElement(left, k);
      moved := moved + [left[k]];
      left := left[..k] + left[k + 1..];
      k := FirstElementIndex(left);
    }
    NoElements(left);
    NonElementsHaveNoElements(kids);
  }

  /** `[...li.children].forEach(div => div.className = ...)`. */
  method ClassifyChildren(children: seq<Node>) returns (classed: seq<Node>)
    ensures |classed| == |children|
    ensures forall i :: 0 <= i < |children| ==>
      classed[i] == WithClass(children[i], ClassFor(children[i]))
  {
    classed := [];
    for i := 0 to |children|
      invariant |classed| == i
      invariant forall j :: 0 <= j < i ==> classed[j] == WithClass(children[j], ClassFor(children[j]))
    {
      var div := children[i];
      if |ElementChildren(div)| == 1 && HasDescendant(div, "picture") {
        classed := classed + [WithClass(div, ImageClass)];
      } else {
        classed := classed + [WithClass(div, BodyClass)];
      }
    }
  }

  /**
   * The `forEach` over the rows: one list item per row, in row order, and
   * the rows as they are left behind.
   */
  method BuildList(rows: seq<Node>, click: string) returns (ul: Node, emptied: seq<Node>)
    ensures ul.Element? && ul.tag == "ul"
    ensures |ul.children| == |rows|
    ensures forall i :: 0 <= i < |rows| ==> ul.children[i] == Card(rows[i], click)
    ensures |emptied| == |rows|
    ensures forall i :: 0 <= i < |rows| ==> emptied[i] == Emptied(rows[i])
  {
    var items: seq<Node> := [];
    emptied := [];
    for r := 0 to |rows|
      invariant |items| == r && |emptied| == r
      invariant forall i :: 0 <= i < r ==> items[i] == Card(rows[i], click)
      invariant forall i :: 0 <= i < r ==> emptied[i] == Emptied(rows[i])
    {
      var row := rows[r];
      var link := Link(click);
      var kids := if row.Element? then row.children else [];
      var moved, left := MoveElementChildren(kids);
      var li := moved + [link];
      var classed := ClassifyChildren(li);
      assert classed == Classified(ElementChildren(row) + [link]);
      items := items + [Plain("li", classed)];
      emptied := emptied + [if row.Element? then row.(children := left) else row];
    }
    ul := Plain("ul", items);
  }

  /**
   * `decorate(block)`: the rows are the block's element children; afterwards
   * the list is the block's only child. Returns the rows as they are left.
   */
  method Decorate(block: Block, click: string) returns (rows: seq<Node>)
    modifies block
    ensures |block.children| == 1
    ensures block.children[0].Element? && block.children[0].tag == "ul"
    ensures |block.children[0].children| == |Elements(old(block.children))|
    ensures forall i :: 0 <= i < |Elements(old(block.children))| ==>
      block.children[0].children[i] == Card(Elements(old(block.children))[i], click)
    ensures |rows| == |Elements(old(block.children))|
    ensures forall i :: 0 <= i < |rows| ==> rows[i] == Emptied(Elements(old(block.children))[i])
  {
    var ul;
    ul, rows := BuildList(Elements(block.children), click);
    block.children := [ul];
  }

  /** Children are moved, not copied: a row is left with no element child. */
  lemma EmptiedRowHasNoElementChild(row: Node)
    ensures ElementChildren(Emptied(row)) == []
  {
    if row.Element? {
      NonElementsHaveNoElements(row.children);
    }
  }

  /** The link has no element child, so it is always classed as the body region. */
  lemma LinkIsBody(click: string)
    ensures ClassFor(Link(click)) == BodyClass
  {
  }

  /**
   * A card holds the row's element children in their order, each one classed,
   * followed by exactly one link, which is classed as the body region.
   */
  lemma CardContents(row: Node, click: string)
    ensures var kids, card := ElementChildren(row), Card(row, click).children;
      |card| == |kids| + 1 &&
      (forall j :: 0 <= j < |kids| ==> card[j] == kids[j].(className := ClassFor(kids[j]))) &&
      card[|kids|] == Link(click).(className := BodyClass)
  {
  }

  /**
   * Read off the finished card: a child carries the image class exactly when
   * it has one element child and a `picture` below it, and the body class
   * otherwise.
   */
  lemma CardClasses(row: Node, click: string, j: int)
    requires 0 <= j < |Card(row, click).children|
    ensures var c := Card(row, click).children[j];
      c.Element? &&
      (c.className == ImageClass <==> IsImageRegion(c)) &&
      (c.className == BodyClass <==> !IsImageRegion(c))
  {
  }
}
