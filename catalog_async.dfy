/** The async catalog server: it awaits the pages one after the other, so
    its product list is the concatenation of the per-page lists in page
    order; an exception while parsing a page ends the whole request with a
    500 response and nothing is saved. */
module CatalogAsync {
  import opened Common
  import opened Catalog

  /** The result of parse_multiple_pages over the given URLs: `Raised` as
      soon as one page raises, else all products in page order. */
  function Gather(urls: seq<string>, fetch: string -> Option<string>,
                  soup: string -> Option<seq<Card>>): PageResult
    decreases |urls|
  {
    if urls == [] then Parsed([])
    else
      match Gather(urls[..|urls| - 1], fetch, soup)
      case Raised => Raised
      case Parsed(front) =>
        match PageOutcome(fetch(urls[|urls| - 1]), soup)
        case Raised => Raised
        case Parsed(ps) => Parsed(front + ps)
  }

  lemma {:induction false} GatherRaisedExtends(urls: seq<string>, n: nat,
                                               fetch: string -> Option<string>,
                                               soup: string -> Option<seq<Card>>)
    requires n <= |urls| && Gather(urls[..n], fetch, soup).Raised?
    ensures Gather(urls, fetch, soup).Raised?
    decreases |urls| - n
  {
    if n < |urls| {
      assert urls[..n + 1][..n] == urls[..n];
      GatherRaisedExtends(urls, n + 1, fetch, soup);
    } else {
      assert urls[..n] == urls;
    }
  }

  /** Gathering one more page: it raises if the earlier pages or the new
      one raise, and otherwise appends the new page's products. */
  lemma GatherStep(urls: seq<string>, i: nat, fetch: string -> Option<string>,
                   soup: string -> Option<seq<Card>>)
    requires i < |urls|
    ensures var front := Gather(urls[..i], fetch, soup);
            var page := PageOutcome(fetch(urls[i]), soup);
            Gather(urls[..i + 1], fetch, soup) ==
              if front.Raised? || page.Raised? then Raised else Parsed(front.products + page.products)
  {
    assert urls[..i + 1][..i] == urls[..i];
    assert urls[..i + 1][i] == urls[i];
  }

  /** parse_multiple_pages: visit the pages from start_page to end_page in
      increasing order and extend the list with each page's products. */
  method ParseMultiplePages(baseUrl: string, startPage: int, endPage: int,
                            fetch: string -> Option<string>, soup: string -> Option<seq<Card>>)
    returns (r: PageResult)
    ensures r == Gather(PageUrls(baseUrl, startPage, endPage), fetch, soup)
  {
    ghost var urls := PageUrls(baseUrl, startPage, endPage);
    var pages := if endPage < startPage then 0 else endPage - startPage + 1;
    var allProducts: seq<Product> := [];
    for i := 0 to pages
      invariant Gather(urls[..i], fetch, soup) == Parsed(allProducts)
    {
      var pageUrl := PageUrl(baseUrl, startPage + i);
      var products := ParsePage(pageUrl, fetch, soup);
      GatherStep(urls, i, fetch, soup);
      if products.Raised? {
        GatherRaisedExtends(urls, i + 1, fetch, soup);
        return Raised;
      }
      allProducts := allProducts + products.products;
    }
    assert urls[..pages] == urls;
    return Parsed(allProducts);
  }

  /** Without an exception the async list is the concatenation of the
      per-page lists; one raising page makes the whole batch raise. */
  lemma {:induction false} GatherIsConcat(urls: seq<string>, fetch: string -> Option<string>,
                                          soup: string -> Option<seq<Card>>)
    ensures (forall i :: 0 <= i < |urls| ==> PageOutcome(fetch(urls[i]), soup).Parsed?) ==>
              Gather(urls, fetch, soup) == Parsed(Concat(Successes(urls, fetch, soup)))
    ensures (exists i :: 0 <= i < |urls| && PageOutcome(fetch(urls[i]), soup).Raised?) ==>
              Gather(urls, fetch, soup) == Raised
    decreases |urls|
  {
    if urls != [] {
      var front := urls[..|urls| - 1];
      GatherIsConcat(front, fetch, soup);
      if i :| 0 <= i < |urls| && PageOutcome(fetch(urls[i]), soup).Raised? {
        if i < |urls| - 1 {
          assert front[i] == urls[i];
        }
      }
    }
  }

  /** The content of async_results.json (without timestamp and time). */
  datatype AsyncReport = AsyncReport(url: string, pagesParsed: string, summary: Summary)

  /** The JSON body of the response: status 'success' with the totals, or
      status 'error' (HTTP 500) with the exception's text. */
  datatype JsonResponse =
    | Success(message: string, totalProducts: nat, totalPrice: int)
    | ServerError(message: string)

  /** What handle_parse saves: nothing when a page raised. */
  function AsyncSaved(req: ParseRequest, fetch: string -> Option<string>,
                      soup: string -> Option<seq<Card>>): Option<AsyncReport>
  {
    match Gather(RequestPages(req), fetch, soup)
    case Raised => None
    case Parsed(all) => Some(AsyncReport(RequestUrl(req), PagesParsed(req), Summarize(all)))
  }

  function FoundMessage(n: nat): string {
    "Парсинг завершен. Найдено " + IntToString(n) + " товаров."
  }

  /** handle_parse: parse the pages, save the report and answer with the
      same totals; `errorText` stands for str(e) of a raised exception. */
  method HandleParse(req: ParseRequest, fetch: string -> Option<string>,
                     soup: string -> Option<seq<Card>>, errorText: string)
    returns (saved: Option<AsyncReport>, response: JsonResponse)
    ensures saved == AsyncSaved(req, fetch, soup)
    ensures saved.Some? <==> response.Success?
    ensures saved.Some? ==> response.totalProducts == saved.value.summary.totalProducts
                            && response.totalPrice == saved.value.summary.totalPrice
                            && response.message == FoundMessage(saved.value.summary.totalProducts)
    ensures response.ServerError? ==> response.message == errorText
  {
    var url := RequestUrl(req);
    var result := ParseMultiplePages(url, StartPage(req), EndPage(req), fetch, soup);
    if result.Raised? {
      saved := None;
      response := ServerError(errorText);
      return;
    }
    var allProducts := result.products;
    var totalPrice := TotalPrice(allProducts);
    saved := Some(AsyncReport(url, PagesParsed(req), Summarize(allProducts)));
    response := Success(FoundMessage(|allProducts|), |allProducts|, totalPrice);
  }
}
