/**
 The "all pages" companion of a paginated action (`${action}All` in
 src/Endpoint.js): request page 1 with `per_page` 100, fail when that page
 is null or undefined, stop with no items when it reports no pages or holds
 no list under the collection name, and otherwise request pages 2, 3, … while the page number is below
 `pages + 1`, concatenating each page's collection in page order.
 */
module ListAll {
  import opened Wrappers
  import opened OrderedMaps
  import opened DecimalText
  import opened Values
  import opened Coercion
  import opened XmlCleanup
  import opened Params
  import opened Endpoints

  /** Page size every request of the loop asks for. */
  const PageSize: nat := 100

  /** `{...options, page, per_page: 100}`. */
  function PageOptions(options: Value, page: nat): (o: Value)
    ensures o.Obj?
  {
    Obj(Merge(Entries(options), [("page", Int(page)), ("per_page", Int(PageSize))]))
  }

  /** One page of the underlying action. */
  function FetchPage(name: string, base: Base, a: Action, options: Value, post: Request -> Raw, page: nat): Result<Value, SpreadError> {
    Invoke(name, base, a, PageOptions(options, page), post)
  }

  /**
   The last page the loop requests, from the first page's `pages`: the
   loop runs while `page < pages + 1`. JavaScript's `+` adds to a number
   or a boolean, and concatenates `"1"` to the text of anything else,
   which the comparison then reads back as a number (not a number: no
   further pages).
   */
  function LastPage(pages: Value): int {
    match pages
    case Num(n) => Ceiling(n)
    case Bool(b) => if b then 1 else 0
    case Nil => 1
    case _ =>
      match ParseDecimal(ToText(pages) + "1")
      case Some(x) => Ceiling(x) - 1
      case None => 1
  }

  /** Why the loop stops with an error. */
  datatype ListError =
    | Rejected(error: SpreadError)  // a request could not be built
    | NoFirstPage                   // page 1 is null or undefined, so reading its `pages` throws
    | NotIterable(page: nat)        // a later page holds no list or text under the collection name

  /** Array spread `[...v]`: a list's items, a text's characters; anything else throws. */
  function Iterate(v: Value): Option<seq<Value>> {
    match v
    case List(items) => Some(items)
    case Str(s) => Some(seq(|s|, i requires 0 <= i < |s| => Str([s[i]])))
    case _ => None
  }

  /** The response of each page number: the action called with that page's options. */
  type PageSource = nat -> Result<Value, SpreadError>

  /** The pages of action `a` on resource `name`, for the caller's `options`. */
  function PagesOf(name: string, base: Base, a: Action, options: Value, post: Request -> Raw): PageSource {
    (p: nat) => FetchPage(name, base, a, options, post, p)
  }

  /** The items of pages 2..n appended, in page order, to those of page 1. */
  function PagesUpTo(fetch: PageSource, collection: string, firstItems: seq<Value>, n: int): Result<seq<Value>, ListError>
    decreases n
  {
    if n < 2 then Ok(firstItems)
    else
      match PagesUpTo(fetch, collection, firstItems, n - 1)
      case Err(e) => Err(e)
      case Ok(acc) =>
        match fetch(n)
        case Err(e) => Err(Rejected(e))
        case Ok(current) =>
          match Iterate(Prop(current, collection))
          case None => Err(NotIterable(n))
          case Some(items) => Ok(acc + items)
  }

  /** What the companion returns for the pages `fetch` gives. */
  function AllPages(fetch: PageSource, collection: string): Result<seq<Value>, ListError> {
    match fetch(1)
    case Err(e) => Err(Rejected(e))
    case Ok(first) =>
      if first.Nil? then Err(NoFirstPage)
      else
      var pages := Prop(first, "pages");
      var found := Prop(first, collection);
      if !Truthy(pages) || !found.List? then Ok([])
      else PagesUpTo(fetch, collection, found.items, LastPage(pages))
  }

  /** Once a page fails, every longer run fails the same way. */
  lemma {:induction false} FailureSticks(fetch: PageSource, collection: string, firstItems: seq<Value>, k: int, n: int)
    requires k <= n
    requires PagesUpTo(fetch, collection, firstItems, k).Err?
    ensures PagesUpTo(fetch, collection, firstItems, n) == PagesUpTo(fetch, collection, firstItems, k)
    decreases n - k
  {
    if k < n {
      FailureSticks(fetch, collection, firstItems, k, n - 1);
    }
  }

  /** The companion as a loop over page numbers. */
  method ListAllPages(name: string, base: Base, a: Action, options: Value, post: Request -> Raw)
    returns (r: Result<seq<Value>, ListError>)
    requires a.paginate.Some?
    ensures r == AllPages(PagesOf(name, base, a, options, post), a.paginate.value)
  {
    var collection := a.paginate.value;
    var fetch := PagesOf(name, base, a, options, post);
    var firstPage := fetch(1);
    if firstPage.Err? {
      return Err(Rejected(firstPage.error));
    }
    var first := firstPage.value;
    if first.Nil? {
      return Err(NoFirstPage);
    }
    var pages := Prop(first, "pages");
    if !Truthy(pages) {
      return Ok([]);
    }
    var found := Prop(first, collection);
    if !found.List? {
      return Ok([]);
    }
    var results := found.items;
    var last := LastPage(pages);
    var page: nat := 2;
    while page < last + 1
      invariant 2 <= page
      invariant page <= last + 1 || page == 2
      invariant PagesUpTo(fetch, collection, found.items, page - 1) == Ok(results)
      decreases last + 1 - page
    {
      var current := fetch(page);
      if current.Err? {
        FailureSticks(fetch, collection, found.items, page, last);
        return Err(Rejected(current.error));
      }
      var items := Iterate(Prop(current.value, collection));
      if items.None? {
        FailureSticks(fetch, collection, found.items, page, last);
        return Err(NotIterable(page));
      }
      results := results + items.value;
      page := page + 1;
    }
    r := Ok(results);
  }
}
