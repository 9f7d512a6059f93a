/** `LayoutEngine.computePages`: from a template and a business data object to
    the ordered list of computed pages. The first element of type `table`
    drives pagination; every other element is kept or dropped per page by its
    position relative to that table. */
module Layout {
  import opened Values
  import opened Grouping
  import opened Pagination

  datatype Option<T> = None | Some(value: T)

  datatype Margins = Margins(top: real, right: real, bottom: real, left: real)

  /** The paper configuration; the engine reads only `margins.top`. */
  datatype Paper = Paper(width: real, height: real, margins: Margins)

  /** A template element: its id, its `type`, its vertical position and, for a
      table, the pagination options read off the element itself. */
  datatype Element = Element(id: string, kind: string, y: real, opts: TableOptions)

  /** The template; `headerDisplay` and `footerDisplay` hold 'perPage' when
      the template leaves them out. */
  datatype Template = Template(paper: Paper, elements: seq<Element>, headerDisplay: string, footerDisplay: string)

  /** A value of a page's data: one copied from the business data, or the
      rows of the table bound for that page. */
  datatype Bound = Given(d: Datum) | Rows(rows: seq<seq<Cell>>)

  datatype ComputedPage = ComputedPage(
    pageNumber: nat,
    totalPages: nat,
    elements: seq<Element>,
    paperConfig: Paper,
    pageData: map<string, Bound>)

  /** What decides the elements of one page. */
  datatype PageView = PageView(tableY: real, first: bool, last: bool, header: string, footer: string, top: real)

  // ---------------------------------------------------------------------------
  // Specification
  // ---------------------------------------------------------------------------

  /** `elements.find(el => el.type === 'table')`: the index of the first table. */
  function FindTable(els: seq<Element>): (r: Option<nat>)
    ensures r.Some? ==> r.value < |els| && els[r.value].kind == "table" &&
                        forall j :: 0 <= j < r.value ==> els[j].kind != "table"
    ensures r.None? ==> forall j :: 0 <= j < |els| ==> els[j].kind != "table"
  {
    if els == [] then None
    else if els[0].kind == "table" then Some(0)
    else match FindTable(els[1..])
      case None => None
      case Some(j) => Some(j + 1)
  }

  /** `{ ...this.data }`: every business value, unchanged. */
  function Bind(data: map<string, Datum>): (r: map<string, Bound>)
    ensures r.Keys == data.Keys
    ensures forall k :: k in data ==> r[k] == Given(data[k])
  {
    map k | k in data :: Given(data[k])
  }

  /** `__table_<id>_data`: the page-data key of a table's rows. */
  function TableKey(id: string): string
  {
    "__table_" + id + "_data"
  }

  /** `this.data[dataKey] || []`: an array is taken as is, a missing or falsy
      value is an empty array, and a truthy non-array cannot be paginated. */
  function ResolveItems(data: map<string, Datum>, key: string): (r: Result<seq<Item>>)
    ensures r.Err? <==> key in data && data[key].Scalar? && Truthy(data[key].v)
    ensures r.Err? ==> r.fault == NotAnArray
    ensures key in data && data[key].List? ==> r == Ok(data[key].items)
    ensures r.Ok? && !(key in data && data[key].List?) ==> r.value == []
  {
    if key !in data then Ok([])
    else match data[key]
      case List(items) => Ok(items)
      case Scalar(v) => if Truthy(v) then Err(NotAnArray) else Ok([])
  }

  /** The table's cells: the data array, grouped when `groupBy` is set. */
  function TableCells(data: map<string, Datum>, opts: TableOptions): (r: Result<seq<Cell>>)
    ensures var raw := ResolveItems(data, opts.dataKey);
            (r.Err? <==> raw.Err? || (opts.groupBy != "" && !NoNullish(raw.value))) &&
            (r.Err? && raw.Ok? ==> r.fault == PropertyOfNullish) &&
            (r.Ok? ==> multiset(ItemsOf(r.value)) == multiset(raw.value)) &&
            (r.Ok? && opts.groupBy == "" ==> ItemsOf(r.value) == raw.value && MarkersOf(r.value) == [])
  {
    match ResolveItems(data, opts.dataKey)
    case Err(f) => Err(f)
    case Ok(raw) =>
      if opts.groupBy != "" then
        if NoNullish(raw) then GroupedShape(raw, opts.groupBy); Grouped(raw, opts.groupBy)
        else Grouped(raw, opts.groupBy)
      else
        ItemsOfDataCells(raw); Ok(DataCells(raw))
  }

  /** The filter callback: tables and page-info elements always stay; an
      element above the table is a header, below it a footer. */
  predicate Keep(el: Element, v: PageView)
    ensures !Keep(el, v) <==>
      el.kind != "table" && el.kind != "pageInfo" &&
      ((el.y < v.tableY && v.header == "firstPageOnly" && !v.first) ||
       (el.y > v.tableY && v.footer == "lastPageOnly" && !v.last))
  {
    if el.kind == "table" then true
    else if el.kind == "pageInfo" then true
    else if el.y < v.tableY then (if v.header == "firstPageOnly" then v.first else true)
    else if el.y > v.tableY then (if v.footer == "lastPageOnly" then v.last else true)
    else true
  }

  /** The map callback: a table keeps its declared `y` on the first page and
      moves to the top margin on every later page. */
  function Place(el: Element, v: PageView): (p: Element)
    ensures p.id == el.id && p.kind == el.kind && p.opts == el.opts
    ensures el.kind != "table" || v.first ==> p == el
    ensures el.kind == "table" && !v.first ==> p.y == v.top
  {
    if el.kind == "table" then el.(y := if v.first then el.y else v.top) else el
  }

  /** `elements.filter(Keep).map(Place)`. */
  function PageElements(els: seq<Element>, v: PageView): seq<Element>
    decreases |els|
  {
    if els == [] then []
    else
      var last := els[|els| - 1];
      PageElements(els[..|els| - 1], v) + (if Keep(last, v) then [Place(last, v)] else [])
  }

  /** The view of page `i` of `total`. */
  function ViewOf(t: Template, table: Element, i: nat, total: nat): PageView
  {
    PageView(table.y, i == 0, i == total - 1, t.headerDisplay, t.footerDisplay, t.paper.margins.top)
  }

  /** Page `i` of `tablePages`. */
  function PageAt(t: Template, data: map<string, Datum>, table: Element, tablePages: seq<seq<seq<Cell>>>, i: nat): ComputedPage
    requires i < |tablePages|
  {
    ComputedPage(
      i + 1,
      |tablePages|,
      PageElements(t.elements, ViewOf(t, table, i, |tablePages|)),
      t.paper,
      Bind(data)[TableKey(table.id) := Rows(tablePages[i])])
  }

  /** `computePages()`. */
  function Pages(t: Template, data: map<string, Datum>): Result<seq<ComputedPage>>
  {
    match FindTable(t.elements)
    case None => Ok([ComputedPage(1, 1, t.elements, t.paper, Bind(data))])
    case Some(ti) =>
      var table := t.elements[ti];
      match TableCells(data, table.opts)
      case Err(f) => Err(f)
      case Ok(cells) =>
        var tablePages := TablePages(cells, table.opts);
        Ok(seq(|tablePages|, i requires 0 <= i < |tablePages| => PageAt(t, data, table, tablePages, i)))
  }

  // ---------------------------------------------------------------------------
  // Properties of the per-page element selection
  // ---------------------------------------------------------------------------

  /** The indices of the first `n` elements that `Keep` lets through, in order. */
  function KeptIndices(els: seq<Element>, v: PageView, n: nat): seq<nat>
    requires n <= |els|
  {
    if n == 0 then []
    else KeptIndices(els, v, n - 1) + (if Keep(els[n - 1], v) then [n - 1] else [])
  }

  lemma {:induction false} KeptIndicesPrefix(els: seq<Element>, v: PageView, n: nat)
    requires n <= |els|
    ensures var out := PageElements(els[..n], v);
            var idx := KeptIndices(els, v, n);
            |out| == |idx| &&
            (forall j :: 0 <= j < |idx| ==> idx[j] < n && Keep(els[idx[j]], v) && out[j] == Place(els[idx[j]], v)) &&
            (forall j, k :: 0 <= j < k < |idx| ==> idx[j] < idx[k]) &&
            (forall i :: 0 <= i < n ==> (i in idx <==> Keep(els[i], v)))
  {
    if n > 0 {
      KeptIndicesPrefix(els, v, n - 1);
      assert els[..n][..n - 1] == els[..n - 1];
      assert els[..n][n - 1] == els[n - 1];
    }
  }

  /** Each page shows the elements `Keep` lets through, each exactly once, in
      their template order, with tables placed by `Place`. */
  lemma PageElementsOrder(els: seq<Element>, v: PageView)
    ensures var out := PageElements(els, v);
            var idx := KeptIndices(els, v, |els|);
            |out| == |idx| &&
            (forall j :: 0 <= j < |idx| ==> idx[j] < |els| && Keep(els[idx[j]], v) && out[j] == Place(els[idx[j]], v)) &&
            (forall j, k :: 0 <= j < k < |idx| ==> idx[j] < idx[k]) &&
            (forall i :: 0 <= i < |els| ==> (i in idx <==> Keep(els[i], v)))
  {
    KeptIndicesPrefix(els, v, |els|);
    assert els[..|els|] == els;
  }

  /** Unfolding `PageElements` at its last element. */
  lemma PageElementsStep(els: seq<Element>, v: PageView)
    requires els != []
    ensures PageElements(els, v) == PageElements(els[..|els| - 1], v) +
              (if Keep(els[|els| - 1], v) then [Place(els[|els| - 1], v)] else [])
  {
  }

  /** On a page that is both first and last, an element is kept and not moved. */
  lemma OnlyPageKeepsOne(el: Element, v: PageView)
    requires v.first && v.last
    ensures Keep(el, v) && Place(el, v) == el
  {
  }

  /** On a page that is both first and last, every element is shown, unchanged. */
  lemma {:induction false} OnlyPageKeepsAll(els: seq<Element>, v: PageView)
    requires v.first && v.last
    ensures PageElements(els, v) == els
    decreases |els|
  {
    if els != [] {
      var pre, last := els[..|els| - 1], els[|els| - 1];
      OnlyPageKeepsAll(pre, v);
      OnlyPageKeepsOne(last, v);
      PageElementsStep(els, v);
      SplitLast(els);
    }
  }

  /** With 'perPage' display for both header and footer, every page shows every
      element; only tables are moved. */
  lemma {:induction false} PerPageKeepsAll(els: seq<Element>, v: PageView)
    requires v.header != "firstPageOnly" && v.footer != "lastPageOnly"
    ensures |PageElements(els, v)| == |els|
    ensures forall j :: 0 <= j < |els| ==> PageElements(els, v)[j] == Place(els[j], v)
    decreases |els|
  {
    if els != [] {
      PerPageKeepsAll(els[..|els| - 1], v);
    }
  }

  /** Under 'firstPageOnly', a later page shows no header; under
      'lastPageOnly', an earlier page shows no footer. Tables and page-info
      elements are exempt. */
  lemma DisplayModesDrop(els: seq<Element>, v: PageView)
    ensures v.header == "firstPageOnly" && !v.first ==>
              forall e :: e in PageElements(els, v) && e.kind != "table" && e.kind != "pageInfo" ==> e.y >= v.tableY
    ensures v.footer == "lastPageOnly" && !v.last ==>
              forall e :: e in PageElements(els, v) && e.kind != "table" && e.kind != "pageInfo" ==> e.y <= v.tableY
  {
    PageElementsOrder(els, v);
    var out := PageElements(els, v);
    var idx := KeptIndices(els, v, |els|);
    forall e | e in out
      ensures e.kind != "table" && e.kind != "pageInfo" ==>
                (v.header == "firstPageOnly" && !v.first ==> e.y >= v.tableY) &&
                (v.footer == "lastPageOnly" && !v.last ==> e.y <= v.tableY)
    {
      var j :| 0 <= j < |out| && out[j] == e;
    }
  }

  /** Which elements a page keeps: every table and page-info element, every
      element level with the table, a header unless it is 'firstPageOnly' on a
      later page, a footer unless it is 'lastPageOnly' on an earlier page. */
  lemma {:induction false} KeptElements(els: seq<Element>, v: PageView, i: nat)
    requires i < |els|
    requires || els[i].kind == "table" || els[i].kind == "pageInfo"
             || els[i].y == v.tableY
             || (els[i].y < v.tableY && (v.header != "firstPageOnly" || v.first))
             || (els[i].y > v.tableY && (v.footer != "lastPageOnly" || v.last))
    ensures Place(els[i], v) in PageElements(els, v)
  {
    PageElementsOrder(els, v);
    var idx := KeptIndices(els, v, |els|);
    assert i in idx;
    var j :| 0 <= j < |idx| && idx[j] == i;
    assert PageElements(els, v)[j] == Place(els[i], v);
  }

  /** The first page shows only template elements, unmoved: every table keeps
      its declared `y`. */
  lemma {:induction false} FirstPageUnmoved(els: seq<Element>, v: PageView)
    requires v.first
    ensures forall e :: e in PageElements(els, v) ==> e in els
  {
    PageElementsOrder(els, v);
    var out := PageElements(els, v);
    var idx := KeptIndices(els, v, |els|);
    forall e | e in out
      ensures e in els
    {
      var j :| 0 <= j < |out| && out[j] == e;
      assert e == els[idx[j]];
    }
  }

  /** After the first page every table sits at the top margin. */
  lemma TablesMoveToTop(els: seq<Element>, v: PageView)
    requires !v.first
    ensures forall e :: e in PageElements(els, v) && e.kind == "table" ==> e.y == v.top
  {
    PageElementsOrder(els, v);
    var out := PageElements(els, v);
    forall e | e in out && e.kind == "table"
      ensures e.y == v.top
    {
      var j :| 0 <= j < |out| && out[j] == e;
    }
  }

  // ---------------------------------------------------------------------------
  // Properties of the pages
  // ---------------------------------------------------------------------------

  /** Without a table there is exactly one page, numbered 1 of 1, with every
      element and the data as given. */
  lemma NoTableSinglePage(t: Template, data: map<string, Datum>)
    requires forall j :: 0 <= j < |t.elements| ==> t.elements[j].kind != "table"
    ensures Pages(t, data) == Ok([ComputedPage(1, 1, t.elements, t.paper, Bind(data))])
  {
  }

  /** With a table: one page per table page, numbered 1..k of k, each showing
      its element selection and binding that page's rows under the table's key
      next to the unchanged data. */
  lemma TablePagesNumbered(t: Template, data: map<string, Datum>, cells: seq<Cell>)
    requires FindTable(t.elements).Some?
    requires TableCells(data, t.elements[FindTable(t.elements).value].opts) == Ok(cells)
    ensures var table := t.elements[FindTable(t.elements).value];
            var tablePages := TablePages(cells, table.opts);
            var key := TableKey(table.id);
            Pages(t, data).Ok? &&
            |Pages(t, data).value| == |tablePages| &&
            forall i :: 0 <= i < |tablePages| ==>
              var page := Pages(t, data).value[i];
              page.pageNumber == i + 1 &&
              page.totalPages == |tablePages| &&
              page.paperConfig == t.paper &&
              page.elements == PageElements(t.elements, ViewOf(t, table, i, |tablePages|)) &&
              page.pageData.Keys == data.Keys + {key} &&
              page.pageData[key] == Rows(tablePages[i]) &&
              forall k :: k in data && k != key ==> page.pageData[k] == Given(data[k])
  {
  }

  /** An empty or missing data array gives no pages at all, and any
      non-empty one gives at least one. */
  lemma EmptyDataNoPages(t: Template, data: map<string, Datum>)
    requires FindTable(t.elements).Some?
    requires ResolveItems(data, t.elements[FindTable(t.elements).value].opts.dataKey).Ok?
    ensures var raw := ResolveItems(data, t.elements[FindTable(t.elements).value].opts.dataKey).value;
            Pages(t, data).Ok? ==> (Pages(t, data).value == [] <==> raw == [])
  {
    var table := t.elements[FindTable(t.elements).value];
    var raw := ResolveItems(data, table.opts.dataKey).value;
    match TableCells(data, table.opts)
    case Err(_) =>
    case Ok(cells) =>
      TablePagesCount(cells, table.opts);
      if table.opts.groupBy != "" {
        if raw == [] {
          GroupedEmpty(table.opts.groupBy);
        } else {
          GroupedShape(raw, table.opts.groupBy);
        }
      }
  }

  /** A page count of one shows every element unchanged on that page. */
  lemma SingleTablePage(t: Template, data: map<string, Datum>)
    requires Pages(t, data).Ok? && |Pages(t, data).value| == 1
    ensures Pages(t, data).value[0].elements == t.elements
  {
    match FindTable(t.elements)
    case None =>
    case Some(ti) =>
      var table := t.elements[ti];
      var cells := TableCells(data, table.opts).value;
      var tablePages := TablePages(cells, table.opts);
      OnlyPageKeepsAll(t.elements, ViewOf(t, table, 0, |tablePages|));
  }

  /** With `groupBy` set, a null or undefined entry makes the pass throw. */
  lemma NullEntryFails(t: Template, data: map<string, Datum>, items: seq<Item>, i: nat)
    requires FindTable(t.elements).Some?
    requires var opts := t.elements[FindTable(t.elements).value].opts;
             opts.groupBy != "" && opts.dataKey in data && data[opts.dataKey] == List(items)
    requires i < |items| && Nullish(items[i])
    ensures Pages(t, data) == Err(PropertyOfNullish)
  {
  }

  /** A truthy value that is not an array under the data key is refused. */
  lemma ScalarDataFails(t: Template, data: map<string, Datum>)
    requires FindTable(t.elements).Some?
    requires var key := t.elements[FindTable(t.elements).value].opts.dataKey;
             key in data && data[key].Scalar? && Truthy(data[key].v)
    ensures Pages(t, data) == Err(NotAnArray)
  {
  }

  // ---------------------------------------------------------------------------
  // The engine
  // ---------------------------------------------------------------------------

  class LayoutEngine {
    const template: Template
    const data: map<string, Datum>

    constructor(template: Template, data: map<string, Datum>)
      ensures this.template == template && this.data == data
    {
      this.template := template;
      this.data := data;
    }

    /** The counted loop that assembles one page per table page. */
    method AssemblePages(table: Element, tablePages: seq<seq<seq<Cell>>>) returns (result: seq<ComputedPage>)
      ensures result == seq(|tablePages|, j requires 0 <= j < |tablePages| => PageAt(template, data, table, tablePages, j))
    {
      var totalPages := |tablePages|;
      result := [];
      var i := 0;
      while i < totalPages
        invariant 0 <= i <= totalPages
        invariant |result| == i
        invariant forall j :: 0 <= j < i ==> result[j] == PageAt(template, data, table, tablePages, j)
      {
        var view := ViewOf(template, table, i, totalPages);
        var page := ComputedPage(
          i + 1,
          totalPages,
          PageElements(template.elements, view),
          template.paper,
          Bind(data)[TableKey(table.id) := Rows(tablePages[i])]);
        result := result + [page];
        i := i + 1;
      }
    }

    /** `computePages()`: find the table, prepare and paginate its cells, then
        assemble one page per table page. */
    method ComputePages() returns (pages: Result<seq<ComputedPage>>)
      ensures pages == Pages(template, data)
    {
      var elements := template.elements;
      var found := FindTable(elements);
      if found.None? {
        return Ok([ComputedPage(1, 1, elements, template.paper, Bind(data))]);
      }
      var table := elements[found.value];
      var rawItems := ResolveItems(data, table.opts.dataKey);
      if rawItems.Err? {
        return Err(rawItems.fault);
      }
      var processed: Result<seq<Cell>> := Ok(DataCells(rawItems.value));
      if table.opts.groupBy != "" {
        processed := GroupData(rawItems.value, table.opts.groupBy);
      }
      if processed.Err? {
        return Err(processed.fault);
      }
      assert TableCells(data, table.opts) == processed;
      var tablePages := CalculateTablePagination(table.opts, processed.value);
      var result := AssemblePages(table, tablePages);
      return Ok(result);
    }
  }
}
