# Block decorators: employee pagination, card list, author bio

This project models three block decorators of a web-authoring site. Each
decorator takes one block element of the page and rewrites its content.

- **Employee list** (`Employee`). The block shows one page of employee records
  fetched from `/employee.json?offset=..&limit=..`, followed by a pagination
  bar. `currentPage` starts at 1. A page asks for `ItemsPerPage` = 5 records at
  offset `(page - 1) * 5`. The bar shows "Previous" only after page 1 and
  "Next" only before the last page, where the page count is `ceil(total / 5)`.
  A click handler moves the counter only inside those bounds and then renders
  the new page. A successful render leaves the block as the caption
  paragraph, the list with one item per record, and the bar. A failed fetch
  leaves the block as it was. The block and the state the decorator's closures
  share are the class `EmployeeBlock`. The fetch is replaced by a `Response`
  parameter: `Ok(data, total)` or `Failed`. The model keeps one behaviour of
  the code as it is: the counter moves before the fetch. So after a failed
  fetch the bar still shows the old page while the counter has moved on. A
  later click in the same direction then skips a page
  (`FailedFetchMovesCounter`), unless the counter has reached the first or
  the last page; then the button in that direction stays on screen but does
  nothing (`FailedFetchLeavesDeadPrevious`, `FailedFetchLeavesDeadNext`).
- **Card list** (`Cards`). Every row (element child) of the block becomes one
  `li`. The row's element children move into it in order, and a link with
  `href="#"` and the `click` placeholder as its text is appended. Each child of
  the `li` then gets the class `cards-card-image` when it has exactly one
  element child and a `picture` somewhere below it. Otherwise it gets
  `cards-card-body`. The list then replaces the block's content. Nodes are
  values (`Dom.Node`). The block element is the class `Dom.Block`.
- **Bio** (`Bio`). The author name is the non-empty `alt` of the first bio-block
  image. Failing that, it is the `content` of the `meta[name="author"]` tag.
  Failing that, it is empty. One `strong` element holding the name is appended
  to the block. Running the decorator twice appends the name twice.

The image test (blocks/cards/cards.js:20) asks for exactly one element child
and a `picture` anywhere below the node (`querySelector`), not for a single
child that is itself a picture. `Cards.IsImageRegion` uses `Dom.HasDescendant`.

## Model

| member | source | states |
|---|---|---|
| `Employee.Offset` | blocks/employee/employee.js:20-21 | the offset of a page is a multiple of the page size, never negative for a page from 1 on, and 0 for page 1 |
| `Employee.RecordOnPage` | blocks/employee/employee.js:21-22 | record number k falls in the window a page's request asks for exactly when k / 5 is that page minus one, so the pages split the records |
| `Employee.TotalPages` | blocks/employee/employee.js:45 | the page count is the ceiling of total / 5: its pages hold all records, and one page fewer would not |
| `Employee.PageExistsIffOffsetInRange` | blocks/employee/employee.js:45 | a page number from 1 on is within the page count exactly when its first record exists |
| `Employee.Controls` | blocks/employee/employee.js:46-58 | Previous is present iff page > 1, Next is present iff page < page count, and the "Page X of Y" label is always present with Previous only before it and Next only after it |
| `Employee.TwelveRecords` | blocks/employee/employee.js:44-58 | with 12 records there are 3 pages; page 1 shows only Next, page 2 both buttons, page 3 only Previous |
| `Employee.RunStaysInBounds` | blocks/employee/employee.js:61-73 | from a counter in 1..max(1, pages), no sequence of guarded Previous/Next clicks leaves that range |
| `Employee.RunNexts` | blocks/employee/employee.js:68-73 | n Next clicks advance the counter by n pages but stop at the last page |
| `Employee.EveryPageReachable` | blocks/employee/employee.js:68-73 | from page 1, every page up to the page count is reached by Next clicks alone |
| `Employee.ItemShowsRecord` | blocks/employee/employee.js:27-34 | a list item shows all seven fields of its record under their captions: the record can be read back from the item |
| `Employee.ListOf` | blocks/employee/employee.js:25-36 | the list has one item per record, item i showing record i |
| `Employee.RenderList` | blocks/employee/employee.js:25-36 | the accumulation loop yields exactly that list |
| `Employee.AfterRender` | blocks/employee/employee.js:13-41 | after a render, an ok response leaves exactly the caption paragraph, the record list (one item per record, in response order) and the bar of the page; a failed one leaves the block unchanged |
| `Employee.EmployeeBlock.constructor` | blocks/employee/employee.js:1-7 | the caption paragraph is appended after the authored content, the counter is 1, and no controls are shown |
| `Employee.EmployeeBlock.RenderPage` | blocks/employee/employee.js:20-42 | the request is (Offset(page), 5); on an ok response the block is redrawn and the page count is taken from the response total; on a failure nothing changes and the outcome is the failure; the counter is not touched |
| `Employee.EmployeeBlock.RenderPaginationControls` | blocks/employee/employee.js:44-59 | the bar for the page is appended after the list, and the page count the handlers use becomes ceil(total / 5) |
| `Employee.EmployeeBlock.ClickPrev` | blocks/employee/employee.js:61-66 | with Previous on screen and the counter above 1, the counter steps back and that page is rendered; otherwise nothing changes; the bounds are kept while the page count stays the same; the bar keeps showing the counter's page when the click does nothing, or when an ok response reports the same page count |
| `Employee.EmployeeBlock.ClickNext` | blocks/employee/employee.js:68-73 | with Next on screen and the counter below the page count, the counter steps on and that page is rendered; otherwise nothing changes; the bounds are kept while the page count stays the same; the bar keeps showing the counter's page when the click does nothing, or when an ok response reports the same page count |
| `Employee.Decorate` | blocks/employee/employee.js:1-77 | page 1 is requested at offset 0 with limit 5; on success the block is exactly the redrawn page 1, the bar matches the counter and the counter is in bounds; on failure the block is the authored content followed by the caption paragraph |
| `Employee.RunAppend` | blocks/employee/employee.js:61-73 | a run of clicks extended by one click ends one guarded handler step further |
| `Employee.ClickRun` | blocks/employee/employee.js:61-73 | any sequence of Previous/Next clicks on the block, with ok responses of an unchanged page count, moves the counter exactly as `Run` does, keeps it in bounds, and keeps the bar showing its page |
| `Dom.Elements` | blocks/cards/cards.js:12 | the rows are the element nodes of the block's children, in order |
| `Dom.FirstElementIndex` | blocks/cards/cards.js:17 | `firstElementChild` is the first element position, with no element before it |
| `Dom.RemoveFirstElement` | blocks/cards/cards.js:17 | moving out the first element child takes the head of the element children and leaves every other node where it was |
| `Cards.MoveElementChildren` | blocks/cards/cards.js:17 | the moving loop takes every element child of the row in order and leaves the row with its non-element nodes and no element child |
| `Cards.ClassifyChildren` | blocks/cards/cards.js:19-23 | every child gets `cards-card-image` when it has one element child and a `picture` descendant, and `cards-card-body` otherwise |
| `Cards.BuildList` | blocks/cards/cards.js:11-25 | the list has exactly one item per row, in row order, each the card of its row, and every row is left emptied of its element children |
| `Cards.Decorate` | blocks/cards/cards.js:6-35 | afterwards the block's only child is the list, whose items are the cards of the block's rows in order |
| `Cards.EmptiedRowHasNoElementChild` | blocks/cards/cards.js:17 | children are moved, not copied: every row is left without an element child |
| `Cards.LinkIsBody` | blocks/cards/cards.js:14-22 | the appended link has no element child, so it is always classed as the body region |
| `Cards.CardContents` | blocks/cards/cards.js:13-18 | a card holds the row's element children in order, then exactly one link (`href="#"`, text the `click` label) |
| `Cards.CardClasses` | blocks/cards/cards.js:19-23 | every child of a finished card is an element whose class is `cards-card-image` iff it passes the shape test, `cards-card-body` otherwise |
| `Bio.AuthorName` | blocks/bio/bio.js:2-14 | a non-empty alt is the name; otherwise the meta tag's content, when the tag exists; otherwise the empty string |
| `Bio.EmptyAltFallsThrough` | blocks/bio/bio.js:5-9 | an image with an empty or missing alt gives the same name as no image |
| `Bio.AltOverridesMeta` | blocks/bio/bio.js:5-14 | with a non-empty alt, the meta tag does not affect the name |
| `Bio.NameFromASource` | blocks/bio/bio.js:4-14 | the name is empty or taken whole from the alt or from the meta content |
| `Bio.Decorate` | blocks/bio/bio.js:16-19 | exactly one `strong` element with the name is appended, and the existing children are unchanged |
| `Bio.DecorateTwice` | blocks/bio/bio.js:19 | decorating twice appends two name elements: the decorator is not idempotent |

## Left out

- The banner decorator (blocks/banner/banner.js) is not part of this model. It is a single DOM replacement of a paragraph by a heading.
- The fetch and its `async`/`await`: a page's response is a parameter. The race in which a slow response overwrites a newer render is concurrency and is not modelled.
- The HTML text built for the list and the bar, its parsing by `innerHTML`/`insertAdjacentHTML`, and its lack of escaping. The model keeps the structure: parts, items of captioned fields, controls.
- The record's field values are taken as the text the template shows. JSON numbers and booleans are not distinguished from strings.
- `document.querySelector('.prev'/'.next')` searches the whole page, which couples several blocks of this kind on one page. Only a single block is modelled, and its handlers are those of its own bar.
- `Math.ceil` on a floating-point quotient is modelled as integer ceiling division over a non-negative total. A negative or fractional `total` in the response is not modelled.
- Employee.RunStaysInBounds: states the bounds for runs of clicks while the page count stays fixed. A later response with a smaller total can leave the counter above the new page count, and the class methods state their bounds only under an unchanged page count.
- `fetchPlaceholders` and `createOptimizedPicture` come from a helper script that is not part of this model. The `click` label is an input string. Replacing each `picture > img` with an optimised picture happens after classification and is not modelled. A failing placeholder fetch is not modelled either.
- The page-wide lookups of the bio decorator (`.bio.block img`, `meta[name="author"]`) are inputs. The model does not search a document. A meta tag without `content` gives null, which `textContent` shows as the empty string; the model yields that empty string directly.
