/**
 What the all-pages companion promises: the options of every request, the
 empty result when the first page has no pages or no list, the page range
 it walks, and the page-ordered concatenation of the collections.
 */
module ListAllProperties {
  import opened Wrappers
  import opened OrderedMaps
  import opened DecimalText
  import opened Values
  import opened Coercion
  import opened XmlCleanup
  import opened Params
  import opened Endpoints
  import opened ListAll
  import opened CleanupFindings

  /** Every request carries the caller's options with `page` and
      `per_page` overriding them. */
  lemma PageOptionsGet(options: Value, page: nat, k: string)
    ensures FieldValue(PageOptions(options, page).fields, k) ==
      if k == "page" then Int(page)
      else if k == "per_page" then Int(100)
      else FieldValue(Entries(options), k)
  {
    var paging := [("page", Int(page)), ("per_page", Int(PageSize))];
    assert Distinct(paging);
    assert Keys(paging) == ["page", "per_page"];
    GetMerge(Entries(options), paging, k);
  }

  /** A first page whose `pages` is falsy, or that holds no list under the
      collection name, gives no items and no further request; a first page
      that is null or undefined fails instead, since reading its `pages`
      throws. */
  lemma EmptyWhenNoPages(fetch: PageSource, collection: string)
    requires fetch(1).Ok?
    requires !Truthy(Prop(fetch(1).value, "pages")) || !Prop(fetch(1).value, collection).List?
    ensures fetch(1).value.Nil? ==> AllPages(fetch, collection) == Err(NoFirstPage)
    ensures !fetch(1).value.Nil? ==> AllPages(fetch, collection) == Ok([])
  {
  }

  /** The last page requested is the page count itself when `pages` is a
      non-negative integer. */
  lemma IntegerPagesBound(n: nat)
    ensures LastPage(Int(n)) == n
  {
  }

  /**
   When `pages` is the text of `n`, `pages + 1` is the text of `n`
   followed by `1`, so the loop walks on to page `10 * n`.
   */
  lemma TextPagesBound(n: nat)
    ensures LastPage(Str(NatDigits(n))) == 10 * n
  {
    var m := 10 * n + 1;
    if n == 0 {
      assert NatDigits(0) + "1" == "01";
      assert IntegerPart("01") == "01" && FractionPart("01") == "";
      assert DigitsValue("01") == 1 by {
        assert "01"[..1] == "0";
      }
      assert ParseDecimal("01") == Some(Decimal(false, 1, ""));
    } else {
      assert m / 10 == n && m % 10 == 1;
      assert NatDigits(m) == NatDigits(n) + [DigitChar(1)];
      assert NatDigits(n) + "1" == NatDigits(m);
      ParseNatDigits(m);
      assert ParseDecimal(NatDigits(m)) == Some(Decimal(false, m, ""));
    }
  }

  /**
   The consequence of the raw pagination fields: on a response whose
   `clients` collection reports `pages` = n, the pass as written leaves
   `"n"` and the loop would request pages up to `10 * n`; the corrected
   pass leaves the integer and the loop stops at page n.
   */
  lemma TextPagesOvershoot(pages: nat, total: nat)
    ensures LastPage(Prop(CleanupAsWritten(PagedResponse(pages, total)), "pages")) == 10 * pages
    ensures LastPage(Prop(Cleanup(PagedResponse(pages, total)), "pages")) == pages
  {
    LiftedPagesStayText(pages, total);
    TextPagesBound(pages);
  }

  /** The items page `p` contributes, when it succeeds. */
  function PageItems(fetch: PageSource, collection: string, p: nat): seq<Value> {
    match fetch(p)
    case Err(_) => []
    case Ok(v) => Iterate(Prop(v, collection)).GetOr([])
  }

  /** Page `p` can be built and holds a list or text under the collection name. */
  predicate PageSucceeds(fetch: PageSource, collection: string, p: nat) {
    fetch(p).Ok? && Iterate(Prop(fetch(p).value, collection)).Some?
  }

  /** Pages `from..n` in order, each page's items before the next page's. */
  function Collected(fetch: PageSource, collection: string, from: nat, n: int): seq<Value>
    decreases n - from
  {
    if n < from then []
    else PageItems(fetch, collection, from) + Collected(fetch, collection, from + 1, n)
  }

  /** Appending one page to the pages before it. */
  lemma {:induction false} CollectedSnoc(fetch: PageSource, collection: string, from: nat, n: nat)
    requires from <= n
    ensures Collected(fetch, collection, from, n) == Collected(fetch, collection, from, n - 1) + PageItems(fetch, collection, n)
    decreases n - from
  {
    var last := PageItems(fetch, collection, n);
    if from < n {
      CollectedSnoc(fetch, collection, from + 1, n);
      var head := PageItems(fetch, collection, from);
      var mid := Collected(fetch, collection, from + 1, n - 1);
      assert Collected(fetch, collection, from, n) == head + Collected(fetch, collection, from + 1, n);
      assert Collected(fetch, collection, from, n - 1) == head + mid;
      assert head + (mid + last) == (head + mid) + last;
    } else {
      assert Collected(fetch, collection, from + 1, n) == [];
      assert last + [] == last;
    }
  }

  /** One more page: the run up to page n succeeds when the run before it
      and page n both do, and it appends page n's items. */
  lemma PagesUpToStep(fetch: PageSource, collection: string, firstItems: seq<Value>, n: int)
    requires n >= 2
    ensures PagesUpTo(fetch, collection, firstItems, n).Ok? <==>
      PagesUpTo(fetch, collection, firstItems, n - 1).Ok? && PageSucceeds(fetch, collection, n)
    ensures PagesUpTo(fetch, collection, firstItems, n).Ok? ==>
      PagesUpTo(fetch, collection, firstItems, n).value ==
        PagesUpTo(fetch, collection, firstItems, n - 1).value + PageItems(fetch, collection, n)
  {
  }

  /** Pages 2..n all succeed when pages 2..n-1 and page n do. */
  lemma SucceedsThrough(fetch: PageSource, collection: string, n: int)
    requires n >= 2
    ensures (forall p: nat | 2 <= p <= n :: PageSucceeds(fetch, collection, p)) <==>
      (forall p: nat | 2 <= p <= n - 1 :: PageSucceeds(fetch, collection, p)) && PageSucceeds(fetch, collection, n)
  {
  }

  /**
   The run up to page n succeeds exactly when every page 2..n succeeds,
   and then it is page 1's items followed by those of pages 2..n in page
   order.
   */
  lemma {:induction false} PagesUpToIff(fetch: PageSource, collection: string, firstItems: seq<Value>, n: int)
    ensures PagesUpTo(fetch, collection, firstItems, n).Ok? <==>
      forall p: nat | 2 <= p <= n :: PageSucceeds(fetch, collection, p)
    ensures PagesUpTo(fetch, collection, firstItems, n).Ok? ==>
      PagesUpTo(fetch, collection, firstItems, n).value == firstItems + Collected(fetch, collection, 2, n)
    decreases n
  {
    if n >= 2 {
      PagesUpToIff(fetch, collection, firstItems, n - 1);
      PagesUpToStep(fetch, collection, firstItems, n);
      CollectedSnoc(fetch, collection, 2, n);
      SucceedsThrough(fetch, collection, n);
      if PagesUpTo(fetch, collection, firstItems, n).Ok? {
        var mid := Collected(fetch, collection, 2, n - 1);
        var last := PageItems(fetch, collection, n);
        assert (firstItems + mid) + last == firstItems + (mid + last);
      }
    } else {
      assert Collected(fetch, collection, 2, n) == [];
      assert firstItems + [] == firstItems;
    }
  }

  /**
   Three pages of two clients each, `pages` = 3 on the first: the
   companion returns the six clients in page order.
   */
  lemma ThreePagesOfTwo(fetch: PageSource, c1: Value, c2: Value, c3: Value, c4: Value, c5: Value, c6: Value)
    requires fetch(1) == Ok(Obj([("clients", List([c1, c2])), ("pages", Int(3))]))
    requires fetch(2) == Ok(Obj([("clients", List([c3, c4])), ("pages", Int(3))]))
    requires fetch(3) == Ok(Obj([("clients", List([c5, c6])), ("pages", Int(3))]))
    ensures AllPages(fetch, "clients") == Ok([c1, c2, c3, c4, c5, c6])
  {
    var fs := [("clients", List([c1, c2])), ("pages", Int(3))];
    assert fs[1..] == [("pages", Int(3))];
    assert Get(fs, "pages") == Some(Int(3));
    assert Prop(fetch(1).value, "pages") == Int(3);
    assert Prop(fetch(1).value, "clients") == List([c1, c2]);
    IntegerPagesBound(3);
    assert Prop(fetch(2).value, "clients") == List([c3, c4]);
    assert PagesUpTo(fetch, "clients", [c1, c2], 2) == Ok([c1, c2] + [c3, c4]);
    assert Prop(fetch(3).value, "clients") == List([c5, c6]);
    assert PagesUpTo(fetch, "clients", [c1, c2], 3) == Ok([c1, c2] + [c3, c4] + [c5, c6]);
    assert [c1, c2] + [c3, c4] + [c5, c6] == [c1, c2, c3, c4, c5, c6];
  }
}
