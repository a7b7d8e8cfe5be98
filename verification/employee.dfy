/**
 * The employee-list decorator (blocks/employee/employee.js): a paginated
 * list of employee records with Previous/Next controls. The fetch of a page
 * is replaced by the response it yields, passed in as a parameter; the
 * rendered markup is kept as structure (a caption paragraph, a list of items,
 * a pagination bar) rather than as HTML text.
 */
module Employee {
  import opened Wrappers
  import Dom

  /** `itemsPerPage`: the fixed page size, also the `limit` of every request. */
  const ItemsPerPage: nat := 5

  /** Text of the paragraph that heads the block. */
  const Caption: string := "Employee block"

  /** One entry of `salary.data`; every field as the text the list shows for it. */
  datatype Record = Record(
    id: string, name: string, salary: string, age: string,
    email: string, isActive: string, joiningDate: string)

  /** What fetching a page yields: `salary.data` and `salary.total` of an ok response, or a failed one. */
  datatype Response = Ok(data: seq<Record>, total: nat) | Failed

  /** The query of a fetch: `/employee.json?offset=..&limit=..`. */
  datatype Request = Request(offset: int, limit: nat)

  /** One line of a list item: a caption and the value shown after it. */
  datatype Field = Field(caption: string, value: string)

  /** One `li` of the record list. */
  datatype Item = Item(fields: seq<Field>)

  /** The parts of the pagination bar, in the order they may appear. */
  datatype Control = Previous | PageLabel(page: int, pages: nat) | Next

  /** A top-level child of the block. */
  datatype Part =
    | Authored(node: Dom.Node)
    | Paragraph(text: string)
    | RecordList(items: seq<Item>)
    | Pagination(controls: seq<Control>)

  /** How a render ended: the block was redrawn, or the fetch threw. */
  datatype Outcome = Rendered | FetchFailed

  // ---------------------------------------------------------------------
  // Arithmetic of pages

  /** `offset = (page - 1) * itemsPerPage`: where the records of `page` start. */
  function Offset(page: int): (offset: int)
    ensures offset % ItemsPerPage == 0
    ensures page >= 1 ==> offset >= 0
    ensures page == 1 ==> offset == 0
  {
    (page - 1) * ItemsPerPage
  }

  /** The request of `page` asks for the records numbered `Offset(page)` up to, not including, the next page's offset. */
  lemma RecordOnPage(page: int, k: int)
    requires page >= 1 && k >= 0
    ensures Offset(page) <= k < Offset(page) + ItemsPerPage <==> k / ItemsPerPage == page - 1
  {
  }

  /** `Math.ceil(total / itemsPerPage)`: the fewest pages of `ItemsPerPage` that hold `total` records. */
  function TotalPages(total: nat): (pages: nat)
    ensures total <= pages * ItemsPerPage
    ensures pages == 0 || (pages - 1) * ItemsPerPage < total
  {
    (total + ItemsPerPage - 1) / ItemsPerPage
  }

  /** A page is within the page count exactly when its first record exists. */
  lemma PageExistsIffOffsetInRange(total: nat, page: int)
    requires page >= 1
    ensures page <= TotalPages(total) <==> Offset(page) < total
  {
  }

  // ---------------------------------------------------------------------
  // The pagination bar and the page counter

  /**
   * The bar for `page` of `pages`: Previous only after the first page, the
   * "Page X of Y" label always, Next only before the last page, in that order.
   */
  function Controls(page: int, pages: nat): (bar: seq<Control>)
    ensures Previous in bar <==> page > 1
    ensures Next in bar <==> page < pages
    ensures exists i ::
      && 0 <= i <= 1 && i < |bar| <= i + 2
      && bar[i] == PageLabel(page, pages)
      && (forall j :: 0 <= j < i ==> bar[j] == Previous)
      && (forall j :: i < j < |bar| ==> bar[j] == Next)
  {
    var prev := if page > 1 then [Previous] else [];
    var next := if page < pages then [Next] else [];
    var bar := prev + [PageLabel(page, pages)] + next;
    assert bar[|prev|] == PageLabel(page, pages);
    bar
  }

  /** With 12 records there are 3 pages: the first offers Next, the second both, the last Previous. */
  lemma TwelveRecords()
    ensures TotalPages(12) == 3
    ensures Controls(1, 3) == [PageLabel(1, 3), Next]
    ensures Controls(2, 3) == [Previous, PageLabel(2, 3), Next]
    ensures Controls(3, 3) == [Previous, PageLabel(3, 3)]
  {
  }

  /** The Previous handler: step back unless on the first page. */
  function PrevPage(current: int): int {
    if current > 1 then current - 1 else current
  }

  /** The Next handler: step forward unless on the last page. */
  function NextPage(current: int, pages: nat): int {
    if current < pages then current + 1 else current
  }

  /** The counter lies between the first page and the last one (page 1 when there are none). */
  predicate InBounds(current: int, pages: nat) {
    1 <= current && (current <= pages || current == 1)
  }

  datatype Click = PrevClick | NextClick

  /** The counter after one click's handler, when the button is on screen. */
  function Step(current: int, pages: nat, click: Click): int {
    if click == PrevClick then PrevPage(current) else NextPage(current, pages)
  }

  /** The counter after a run of clicks while the page count stays `pages`. */
  function Run(current: int, pages: nat, clicks: seq<Click>): int
    decreases |clicks|
  {
    if clicks == [] then current
    else Run(Step(current, pages, clicks[0]), pages, clicks[1..])
  }

  /** A run extended by one click ends one step further. */
  lemma {:induction false} RunAppend(current: int, pages: nat, clicks: seq<Click>, click: Click)
    ensures Run(current, pages, clicks + [click]) == Step(Run(current, pages, clicks), pages, click)
    decreases |clicks|
  {
    if clicks != [] {
      assert (clicks + [click])[1..] == clicks[1..] + [click];
      RunAppend(Step(current, pages, clicks[0]), pages, clicks[1..], click);
    }
  }

  /** No run of clicks takes the counter out of its bounds. */
  lemma {:induction false} RunStaysInBounds(current: int, pages: nat, clicks: seq<Click>)
    requires InBounds(current, pages)
    ensures InBounds(Run(current, pages, clicks), pages)
    decreases |clicks|
  {
    if clicks != [] {
      RunStaysInBounds(Step(current, pages, clicks[0]), pages, clicks[1..]);
    }
  }

  /** `n` clicks on Next move the counter `n` pages on, but never past the last page. */
  lemma {:induction false} RunNexts(current: int, pages: nat, n: nat)
    requires InBounds(current, pages)
    ensures Run(current, pages, seq(n, _ => NextClick)) ==
      if current + n <= pages then current + n
      else if current < pages then pages
      else current
    decreases n
  {
    var clicks := seq(n, _ => NextClick);
    if n > 0 {
      assert clicks[0] == NextClick;
      assert clicks[1..] == seq(n - 1, _ => NextClick);
      RunNexts(NextPage(current, pages), pages, n - 1);
    }
  }

  /** Starting on page 1, every page can be reached with Next alone. */
  lemma EveryPageReachable(pages: nat, page: int)
    requires 1 <= page <= pages
    ensures Run(1, pages, seq(page - 1, _ => NextClick)) == page
  {
    RunNexts(1, pages, page - 1);
  }

  // ---------------------------------------------------------------------
  // The record list

  /** The `li` of one record: its seven fields, each after its caption. */
  function ItemOf(e: Record): Item {
    Item([
      Field("Employee ID", e.id),
      Field("Employee Name", e.name),
      Field("Employee Salary", e.salary),
      Field("Employee Age", e.age),
      Field("Employee Email", e.email),
      Field("Employee Status", e.isActive),
      Field("Employee Joining Date", e.joiningDate)])
  }

  /** Reads a record back from an item laid out by `ItemOf`. */
  function RecordOf(item: Item): Option<Record> {
    var f := item.fields;
    if |f| == 7 && f[0].caption == "Employee ID" && f[1].caption == "Employee Name" &&
       f[2].caption == "Employee Salary" && f[3].caption == "Employee Age" &&
       f[4].caption == "Employee Email" && f[5].caption == "Employee Status" &&
       f[6].caption == "Employee Joining Date"
    then Some(Record(f[0].value, f[1].value, f[2].value, f[3].value, f[4].value, f[5].value, f[6].value))
    else None
  }

  /** An item shows its whole record: the record can be read back from it. */
  lemma ItemShowsRecord(e: Record)
    ensures RecordOf(ItemOf(e)) == Some(e)
  {
  }

  /** The items of a page: one per record, in response order. */
  function ListOf(data: seq<Record>): (items: seq<Item>)
    ensures |items| == |data|
    ensures forall i :: 0 <= i < |data| ==> items[i] == ItemOf(data[i])
  {
    if data == [] then [] else [ItemOf(data[0])] + ListOf(data[1..])
  }

  /** The `forEach` that accumulates `listHtml`. */
  method RenderList(data: seq<Record>) returns (items: seq<Item>)
    ensures items == ListOf(data)
  {
    items := [];
    for i := 0 to |data|
      invariant items == ListOf(data[..i])
    {
      assert data[..i + 1] == data[..i] + [data[i]];
      ListOfAppend(data[..i], data[i]);
      items := items + [ItemOf(data[i])];
    }
    assert data[..|data|] == data;
  }

  lemma ListOfAppend(data: seq<Record>, e: Record)
    ensures ListOf(data + [e]) == ListOf(data) + [ItemOf(e)]
  {
  }

  // ---------------------------------------------------------------------
  // The block

  /** The block's children after a render of `page`: redrawn on success, untouched when the fetch fails. */
  function AfterRender(page: int, resp: Response, before: seq<Part>): (after: seq<Part>)
    ensures resp.Failed? ==> after == before
    ensures resp.Ok? ==> |after| == 3 && after[0] == Paragraph(Caption)
    ensures resp.Ok? ==>
      && after[1].RecordList? && |after[1].items| == |resp.data|
      && forall i :: 0 <= i < |resp.data| ==> RecordOf(after[1].items[i]) == Some(resp.data[i])
    ensures resp.Ok? ==> after[2] == Pagination(Controls(page, TotalPages(resp.total)))
  {
    match resp
    case Failed => before
    case Ok(data, total) =>
      var items := ListOf(data);
      assert forall i :: 0 <= i < |data| ==> RecordOf(items[i]) == Some(data[i]) by {
        forall i | 0 <= i < |data| ensures RecordOf(items[i]) == Some(data[i]) {
          ItemShowsRecord(data[i]);
        }
      }
      [Paragraph(Caption), RecordList(items), Pagination(Controls(page, TotalPages(total)))]
  }

  /**
   * One block of this kind, with the state the decorator's closures share:
   * `currentPage`, and the page count the live click handlers were made with.
   */
  class EmployeeBlock {
    var content: seq<Part>
    var currentPage: int
    var totalPages: nat

    ghost predicate Valid()
      reads this
    {
      currentPage >= 1
    }

    /** The controls on screen: the bar is the last child once a render has succeeded. */
    function ShownControls(): seq<Control>
      reads this
    {
      if |content| > 0 && content[|content| - 1].Pagination? then content[|content| - 1].controls else []
    }

    /** The counter is within the bounds of the live page count. */
    predicate PageInBounds()
      reads this
    {
      InBounds(currentPage, totalPages)
    }

    /** The bar on screen is the one for the counter's page. */
    predicate Synced()
      reads this
    {
      ShownControls() == Controls(currentPage, totalPages)
    }

    /** The start of `decorate`: the caption paragraph is appended and the counter is 1. */
    constructor (authored: seq<Dom.Node>)
      ensures Valid()
      ensures content == seq(|authored|, i requires 0 <= i < |authored| => Authored(authored[i])) + [Paragraph(Caption)]
      ensures currentPage == 1 && totalPages == 0
      ensures ShownControls() == []
    {
      content := seq(|authored|, i requires 0 <= i < |authored| => Authored(authored[i])) + [Paragraph(Caption)];
      currentPage := 1;
      totalPages := 0;
    }

    /**
     * `renderPage(page)`: asks for `ItemsPerPage` records at `Offset(page)`;
     * on an ok response the block is cleared and redrawn, on a failed one
     * nothing changes.
     */
    method RenderPage(page: int, resp: Response) returns (req: Request, outcome: Outcome)
      requires Valid()
      modifies this
      ensures Valid()
      ensures req == Request(Offset(page), ItemsPerPage)
      ensures outcome == if resp.Ok? then Rendered else FetchFailed
      ensures content == AfterRender(page, resp, old(content))
      ensures currentPage == old(currentPage)
      ensures totalPages == if resp.Ok? then TotalPages(resp.total) else old(totalPages)
    {
      var offset := Offset(page);
      req := Request(offset, ItemsPerPage);
      match resp
      case Failed =>
        outcome := FetchFailed;
      case Ok(data, total) =>
        var items := RenderList(data);
        content := [Paragraph(Caption), RecordList(items)];
        RenderPaginationControls(page, total);
        outcome := Rendered;
    }

    /** `renderPaginationControls(page, total)`: appends the bar and arms the handlers with the page count. */
    method RenderPaginationControls(page: int, total: nat)
      modifies this
      ensures totalPages == TotalPages(total)
      ensures content == old(content) + [Pagination(Controls(page, totalPages))]
      ensures currentPage == old(currentPage)
    {
      totalPages := TotalPages(total);
      content := content + [Pagination(Controls(page, totalPages))];
    }

    /**
     * A click on Previous: nothing happens unless the button is on screen and
     * the counter is past page 1; then the counter steps back and that page
     * is rendered.
     */
    method ClickPrev(resp: Response) returns (req: Option<Request>, outcome: Option<Outcome>)
      requires Valid()
      modifies this
      ensures Valid()
      ensures currentPage == if Previous in old(ShownControls()) then PrevPage(old(currentPage)) else old(currentPage)
      ensures currentPage != old(currentPage) ==>
        req == Some(Request(Offset(currentPage), ItemsPerPage)) &&
        outcome == Some(if resp.Ok? then Rendered else FetchFailed) &&
        content == AfterRender(currentPage, resp, old(content)) &&
        totalPages == (if resp.Ok? then TotalPages(resp.total) else old(totalPages))
      ensures currentPage == old(currentPage) ==>
        req == None && outcome == None && content == old(content) && totalPages == old(totalPages)
      ensures old(PageInBounds()) && (resp.Failed? || TotalPages(resp.total) == old(totalPages)) ==> PageInBounds()
      ensures old(Synced()) && (currentPage == old(currentPage) || (resp.Ok? && TotalPages(resp.total) == old(totalPages))) ==> Synced()
    {
      req, outcome := None, None;
      if Previous in ShownControls() {
        if currentPage > 1 {
          currentPage := currentPage - 1;
          var r, o := RenderPage(currentPage, resp);
          req, outcome := Some(r), Some(o);
        }
      }
    }

    /**
     * A click on Next: nothing happens unless the button is on screen and
     * the counter is before the last page; then the counter steps on and that
     * page is rendered.
     */
    method ClickNext(resp: Response) returns (req: Option<Request>, outcome: Option<Outcome>)
      requires Valid()
      modifies this
      ensures Valid()
      ensures currentPage == if Next in old(ShownControls()) then NextPage(old(currentPage), old(totalPages)) else old(currentPage)
      ensures currentPage != old(currentPage) ==>
        req == Some(Request(Offset(currentPage), ItemsPerPage)) &&
        outcome == Some(if resp.Ok? then Rendered else FetchFailed) &&
        content == AfterRender(currentPage, resp, old(content)) &&
        totalPages == (if resp.Ok? then TotalPages(resp.total) else old(totalPages))
      ensures currentPage == old(currentPage) ==>
        req == None && outcome == None && content == old(content) && totalPages == old(totalPages)
      ensures old(PageInBounds()) && (resp.Failed? || TotalPages(resp.total) == old(totalPages)) ==> PageInBounds()
      ensures old(Synced()) && (currentPage == old(currentPage) || (resp.Ok? && TotalPages(resp.total) == old(totalPages))) ==> Synced()
    {
      req, outcome := None, None;
      if Next in ShownControls() {
        if currentPage < totalPages {
          currentPage := currentPage + 1;
          var r, o := RenderPage(currentPage, resp);
          req, outcome := Some(r), Some(o);
        }
      }
    }
  }

  /** `decorate(block)`: set up the block and render page 1. */
  method Decorate(authored: seq<Dom.Node>, resp: Response) returns (block: EmployeeBlock, req: Request, outcome: Outcome)
    ensures fresh(block) && block.Valid()
    ensures block.currentPage == 1
    ensures req == Request(0, ItemsPerPage)
    ensures outcome == if resp.Ok? then Rendered else FetchFailed
    ensures resp.Ok? ==> block.totalPages == TotalPages(resp.total)
    ensures resp.Ok? ==> block.Synced() && block.PageInBounds() && |block.content| == 3
    ensures resp.Ok? ==> block.content == AfterRender(1, resp, [])
    ensures resp.Failed? ==>
      block.content == seq(|authored|, i requires 0 <= i < |authored| => Authored(authored[i])) + [Paragraph(Caption)]
    ensures resp.Failed? ==> block.ShownControls() == []
  {
    block := new EmployeeBlock(authored);
    req, outcome := block.RenderPage(block.currentPage, resp);
  }

  /** A walk through twelve records: pages 1 to 3 with Next, and Next does nothing on page 3. */
  method TwelveRecordsWalkthrough(p1: seq<Record>, p2: seq<Record>, p3: seq<Record>, p4: seq<Record>)
  {
    TwelveRecords();
    var block, req, outcome := Decorate([], Ok(p1, 12));
    assert block.ShownControls() == [PageLabel(1, 3), Next];
    var r, o := block.ClickNext(Ok(p2, 12));
    assert block.currentPage == 2 && r == Some(Request(5, 5));
    assert block.ShownControls() == [Previous, PageLabel(2, 3), Next];
    r, o := block.ClickNext(Ok(p3, 12));
    assert block.currentPage == 3 && r == Some(Request(10, 5));
    assert block.ShownControls() == [Previous, PageLabel(3, 3)];
    r, o := block.ClickNext(Ok(p4, 12));
    assert r == None && block.currentPage == 3;
  }

  /**
   * The counter moves before the fetch: after a failed fetch the bar still
   * shows page 1 while the counter says 2, and the next successful Next
   * renders page 3, so page 2 is skipped.
   */
  method FailedFetchMovesCounter(p1: seq<Record>, p3: seq<Record>)
  {
    TwelveRecords();
    var block, req, outcome := Decorate([], Ok(p1, 12));
    var r, o := block.ClickNext(Failed);
    assert o == Some(FetchFailed) && block.currentPage == 2;
    assert block.ShownControls() == [PageLabel(1, 3), Next];
    r, o := block.ClickNext(Ok(p3, 12));
    assert block.currentPage == 3 && r == Some(Request(10, 5));
  }

  /**
   * A failed Next onto the last page: the counter reaches 3 while the bar
   * still shows page 2 with Next, and that Next then does nothing.
   */
  method FailedFetchLeavesDeadNext(p1: seq<Record>, p2: seq<Record>, p3: seq<Record>)
  {
    TwelveRecords();
    var block, req, outcome := Decorate([], Ok(p1, 12));
    assert block.totalPages == 3 && block.ShownControls() == [PageLabel(1, 3), Next];
    var r, o := block.ClickNext(Ok(p2, 12));
    assert block.currentPage == 2 && block.totalPages == 3;
    assert block.ShownControls() == [Previous, PageLabel(2, 3), Next];
    r, o := block.ClickNext(Failed);
    assert o == Some(FetchFailed) && block.currentPage == 3 && block.totalPages == 3;
    assert block.ShownControls() == [Previous, PageLabel(2, 3), Next];
    r, o := block.ClickNext(Ok(p3, 12));
    assert r == None && block.currentPage == 3;
    assert block.ShownControls() == [Previous, PageLabel(2, 3), Next];
  }

  /**
   * A failed Previous onto the first page: the counter reaches 1 while the bar
   * still shows page 2 with Previous, and that Previous then does nothing.
   */
  method FailedFetchLeavesDeadPrevious(p1: seq<Record>, p2: seq<Record>, p3: seq<Record>)
  {
    TwelveRecords();
    var block, req, outcome := Decorate([], Ok(p1, 12));
    assert block.totalPages == 3 && block.ShownControls() == [PageLabel(1, 3), Next];
    var r, o := block.ClickNext(Ok(p2, 12));
    assert block.currentPage == 2 && block.totalPages == 3;
    assert block.ShownControls() == [Previous, PageLabel(2, 3), Next];
    r, o := block.ClickPrev(Failed);
    assert o == Some(FetchFailed) && block.currentPage == 1 && block.totalPages == 3;
    assert block.ShownControls() == [Previous, PageLabel(2, 3), Next];
    r, o := block.ClickPrev(Ok(p3, 12));
    assert r == None && block.currentPage == 1;
    assert block.ShownControls() == [Previous, PageLabel(2, 3), Next];
  }

  /**
   * The handlers follow `Run`: a sequence of Previous/Next clicks on the
   * block, while every response is ok and reports the same page count, moves
   * the counter as `Run` does, and the bar keeps showing the counter's page.
   */
  method ClickRun(block: EmployeeBlock, clicks: seq<Click>, responses: seq<Response>)
    requires block.Valid() && block.Synced() && block.PageInBounds()
    requires |responses| == |clicks|
    requires forall k :: 0 <= k < |responses| ==>
      responses[k].Ok? && TotalPages(responses[k].total) == block.totalPages
    modifies block
    ensures block.Valid() && block.Synced() && block.PageInBounds()
    ensures block.totalPages == old(block.totalPages)
    ensures block.currentPage == Run(old(block.currentPage), old(block.totalPages), clicks)
  {
    ghost var start, pages := block.currentPage, block.totalPages;
    for k := 0 to |clicks|
      invariant block.Valid() && block.Synced() && block.PageInBounds()
      invariant block.totalPages == pages
      invariant block.currentPage == Run(start, pages, clicks[..k])
    {
      RunAppend(start, pages, clicks[..k], clicks[k]);
      assert clicks[..k + 1] == clicks[..k] + [clicks[k]];
      var r, o;
      if clicks[k] == PrevClick {
        r, o := block.ClickPrev(responses[k]);
      } else {
        r, o := block.ClickNext(responses[k]);
      }
    }
    assert clicks[..|clicks|] == clicks;
  }
}
