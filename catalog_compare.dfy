// What compare_results in task1_/run_all.py relies on: the threaded and
// the asyncio catalog servers, run on the same request and the same site,
// save the same totals.

module CatalogCompare {
  import opened Common
  import opened Catalog
  import opened CatalogThreaded
  import opened CatalogAsync

  /** The two servers fetch each page on their own: different HTTP clients
      and headers, at different times. They are compared on a site that
      serves both the same HTML for every requested page. */
  ghost predicate SameHtml(urls: seq<string>, threadedFetch: string -> Option<string>,
                           asyncFetch: string -> Option<string>) {
    forall i :: 0 <= i < |urls| ==> threadedFetch(urls[i]) == asyncFetch(urls[i])
  }

  lemma {:induction false} SuccessesSameHtml(urls: seq<string>, f: string -> Option<string>,
                                             g: string -> Option<string>, soup: string -> Option<seq<Card>>)
    requires SameHtml(urls, f, g)
    ensures Successes(urls, f, soup) == Successes(urls, g, soup)
    decreases |urls|
  {
    if urls != [] {
      var front := urls[..|urls| - 1];
      assert forall i :: 0 <= i < |front| ==> front[i] == urls[i];
      SuccessesSameHtml(front, f, g, soup);
      assert f(urls[|urls| - 1]) == g(urls[|urls| - 1]);
    }
  }

  lemma {:induction false} GatherSameHtml(urls: seq<string>, f: string -> Option<string>,
                                          g: string -> Option<string>, soup: string -> Option<seq<Card>>)
    requires SameHtml(urls, f, g)
    ensures Gather(urls, f, soup) == Gather(urls, g, soup)
    decreases |urls|
  {
    if urls != [] {
      var front := urls[..|urls| - 1];
      assert forall i :: 0 <= i < |front| ==> front[i] == urls[i];
      GatherSameHtml(front, f, g, soup);
      assert f(urls[|urls| - 1]) == g(urls[|urls| - 1]);
    }
  }

  /** Given the same HTML for every page and no page that raises, both
      servers save a report, and whatever order the threaded workers
      delivered their pages in (`arrived`), the product count and price
      total agree, so both differences printed are 0. */
  lemma VariantsAgree(req: ParseRequest, threadedFetch: string -> Option<string>,
                      asyncFetch: string -> Option<string>,
                      soup: string -> Option<seq<Card>>, arrived: seq<seq<Product>>)
    requires SameHtml(RequestPages(req), threadedFetch, asyncFetch)
    requires forall i :: 0 <= i < |RequestPages(req)| ==> PageOutcome(asyncFetch(RequestPages(req)[i]), soup).Parsed?
    requires multiset(arrived) == multiset(Successes(RequestPages(req), threadedFetch, soup))
    ensures AsyncSaved(req, asyncFetch, soup).Some?
    ensures Summarize(Concat(arrived)).totalProducts - AsyncSaved(req, asyncFetch, soup).value.summary.totalProducts == 0
    ensures Summarize(Concat(arrived)).totalPrice - AsyncSaved(req, asyncFetch, soup).value.summary.totalPrice == 0
    ensures AsyncSaved(req, asyncFetch, soup).value.pagesParsed == ThreadedReportOf(req, threadedFetch, soup).pagesParsed
  {
    SuccessesSameHtml(RequestPages(req), threadedFetch, asyncFetch, soup);
    GatherIsConcat(RequestPages(req), asyncFetch, soup);
    AnyArrivalOrderSameTotals(req, asyncFetch, soup, arrived);
  }

  /** Given the same HTML, a page that raises stops the asyncio batch, which
      saves nothing, while the threaded batch still reports the pages that
      parsed. */
  lemma RaisingPageSplitsVariants(req: ParseRequest, threadedFetch: string -> Option<string>,
                                  asyncFetch: string -> Option<string>,
                                  soup: string -> Option<seq<Card>>, i: nat)
    requires SameHtml(RequestPages(req), threadedFetch, asyncFetch)
    requires i < |RequestPages(req)| && PageOutcome(threadedFetch(RequestPages(req)[i]), soup).Raised?
    ensures AsyncSaved(req, asyncFetch, soup).None?
    ensures ThreadedReportOf(req, threadedFetch, soup).summary.totalProducts
            == |Concat(Successes(RequestPages(req), threadedFetch, soup))|
  {
    GatherSameHtml(RequestPages(req), threadedFetch, asyncFetch, soup);
    GatherIsConcat(RequestPages(req), threadedFetch, soup);
  }
}
