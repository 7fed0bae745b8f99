/** The threaded catalog server: the page URLs go into a queue, a capped
    number of worker threads drain it, and the per-page product lists they
    put into a result queue are concatenated and summarised. The workers are
    run one after the other: the first one started drains the whole queue and
    the others find it empty. */
module CatalogThreaded {
  import opened Common
  import opened Catalog

  /** queue.Queue of page URLs together with its count of unfinished tasks
      (raised by put, lowered by task_done, awaited by join). */
  class PageQueue {
    var items: seq<string>
    var unfinished: nat

    constructor ()
      ensures items == [] && unfinished == 0
    {
      items := [];
      unfinished := 0;
    }

    method Put(url: string)
      modifies this
      ensures items == old(items) + [url] && unfinished == old(unfinished) + 1
    {
      items := items + [url];
      unfinished := unfinished + 1;
    }

    function QSize(): nat
      reads this
    {
      |items|
    }

    /** get_nowait(): the head of the queue; None where Python raises
        queue.Empty. */
    method GetNowait() returns (r: Option<string>)
      modifies this
      ensures old(items) == [] ==> r == None && items == []
      ensures old(items) != [] ==> r == Some(old(items)[0]) && items == old(items)[1..]
      ensures unfinished == old(unfinished)
    {
      if items == [] {
        r := None;
      } else {
        r := Some(items[0]);
        items := items[1..];
      }
    }

    /** task_done(); Python raises ValueError when no task is unfinished. */
    method TaskDone()
      requires unfinished > 0
      modifies this
      ensures unfinished == old(unfinished) - 1 && items == old(items)
    {
      unfinished := unfinished - 1;
    }

    /** join() returns once every task put has been marked done; it blocks
        forever otherwise, so it may only be reached in that state. */
    method Join()
      requires unfinished == 0
    {
    }
  }

  /** queue.Queue of per-page product lists. */
  class ResultsQueue {
    var items: seq<seq<Product>>

    constructor ()
      ensures items == []
    {
      items := [];
    }

    method Put(products: seq<Product>)
      modifies this
      ensures items == old(items) + [products]
    {
      items := items + [products];
    }

    function Empty(): bool
      reads this
    {
      items == []
    }

    /** get(); it blocks on an empty queue, and is only called after
        empty() has said there is something to take. */
    method Get() returns (products: seq<Product>)
      requires items != []
      modifies this
      ensures products == old(items)[0] && items == old(items)[1..]
    {
      products := items[0];
      items := items[1..];
    }
  }

  /** parse_page_worker: take URLs until the queue is empty; a page that
      parses puts one product list, a page that raises puts none, and both
      mark their task done once. */
  method ParsePageWorker(pageQueue: PageQueue, resultsQueue: ResultsQueue,
                         fetch: string -> Option<string>, soup: string -> Option<seq<Card>>)
    requires |pageQueue.items| <= pageQueue.unfinished
    modifies pageQueue, resultsQueue
    ensures pageQueue.items == []
    ensures pageQueue.unfinished == old(pageQueue.unfinished) - |old(pageQueue.items)|
    ensures resultsQueue.items == old(resultsQueue.items) + Successes(old(pageQueue.items), fetch, soup)
  {
    ghost var todo := pageQueue.items;
    ghost var taken := 0;
    while true
      invariant 0 <= taken <= |todo|
      invariant pageQueue.items == todo[taken..]
      invariant pageQueue.unfinished == old(pageQueue.unfinished) - taken
      invariant resultsQueue.items == old(resultsQueue.items) + Successes(todo[..taken], fetch, soup)
      decreases |pageQueue.items|
    {
      var pageUrl := pageQueue.GetNowait();
      if pageUrl.None? {
        break;
      }
      assert todo[..taken + 1][..taken] == todo[..taken];
      var products := ParsePage(pageUrl.value, fetch, soup);
      if products.Parsed? {
        resultsQueue.Put(products.products);
        pageQueue.TaskDone();
      } else {
        pageQueue.TaskDone();
      }
      taken := taken + 1;
    }
    assert todo[..taken] == todo;
  }

  const DefaultThreads: int := 5
  const MaxThreads: int := 10

  /** min(data.get('threads', 5), 10): the requested count (5 by default),
      capped at 10. */
  function NumThreads(req: ParseRequest): (n: int)
    ensures n <= MaxThreads && n <= req.threads.GetOr(DefaultThreads)
    ensures n == MaxThreads || n == req.threads.GetOr(DefaultThreads)
    ensures req.threads.None? ==> n == DefaultThreads
  {
    Min(req.threads.GetOr(DefaultThreads), MaxThreads)
  }

  /** How many threads range(min(num_threads, qsize)) starts: the thread
      budget or the number of pages, whichever is smaller, and none when
      that minimum is not positive. */
  function WorkerCount(req: ParseRequest): (w: nat)
    ensures w <= MaxThreads && w <= |RequestPages(req)|
    ensures w == 0 || w <= NumThreads(req)
    ensures w == 0 || w == NumThreads(req) || w == |RequestPages(req)|
    ensures NumThreads(req) <= 0 || RequestPages(req) == [] ==> w == 0
    ensures NumThreads(req) >= 1 && RequestPages(req) != [] ==> w >= 1
  {
    var m := Min(NumThreads(req), |RequestPages(req)|);
    if m < 0 then 0 else m
  }

  /** The content of threaded_results.json (without timestamp and time). */
  datatype ThreadedReport = ThreadedReport(
    url: string, pagesParsed: string, threadsUsed: int, summary: Summary)

  /** All products collected, in the order the pages were taken. */
  function ThreadedProducts(req: ParseRequest, fetch: string -> Option<string>,
                            soup: string -> Option<seq<Card>>): seq<Product>
  {
    Concat(Successes(RequestPages(req), fetch, soup))
  }

  function ThreadedReportOf(req: ParseRequest, fetch: string -> Option<string>,
                            soup: string -> Option<seq<Card>>): ThreadedReport
  {
    ThreadedReport(RequestUrl(req), PagesParsed(req), NumThreads(req),
                   Summarize(ThreadedProducts(req, fetch, soup)))
  }

  /** The first loop of parse_in_background: one URL per page number of
      range(start_page, end_page + 1). */
  method FillPageQueue(url: string, startPage: int, endPage: int) returns (pageQueue: PageQueue)
    ensures fresh(pageQueue)
    ensures pageQueue.items == PageUrls(url, startPage, endPage)
    ensures pageQueue.unfinished == |pageQueue.items|
  {
    pageQueue := new PageQueue();
    var pageNum := startPage;
    while pageNum <= endPage
      invariant startPage <= pageNum && (pageNum <= endPage + 1 || pageNum == startPage)
      invariant |pageQueue.items| == pageNum - startPage
      invariant forall k :: 0 <= k < |pageQueue.items| ==> pageQueue.items[k] == PageUrl(url, startPage + k)
      invariant pageQueue.unfinished == |pageQueue.items|
    {
      pageQueue.Put(PageUrl(url, pageNum));
      pageNum := pageNum + 1;
    }
  }

  /** Start `workers` threads on the queues and wait for the queue to be
      done. The requires is what lets join() return: with no thread and
      pages queued it would wait forever. */
  method RunWorkers(pageQueue: PageQueue, resultsQueue: ResultsQueue, workers: nat,
                    fetch: string -> Option<string>, soup: string -> Option<seq<Card>>)
    requires pageQueue.unfinished == |pageQueue.items| && resultsQueue.items == []
    requires workers >= 1 || pageQueue.items == []
    modifies pageQueue, resultsQueue
    ensures pageQueue.items == [] && pageQueue.unfinished == 0
    ensures resultsQueue.items == Successes(old(pageQueue.items), fetch, soup)
  {
    ghost var pages := pageQueue.items;
    var started := 0;
    while started < workers
      invariant 0 <= started <= workers
      invariant started == 0 ==> pageQueue.items == pages && resultsQueue.items == []
                                 && pageQueue.unfinished == |pages|
      invariant started > 0 ==> pageQueue.items == [] && pageQueue.unfinished == 0
                                && resultsQueue.items == Successes(pages, fetch, soup)
    {
      ParsePageWorker(pageQueue, resultsQueue, fetch, soup);
      started := started + 1;
    }
    pageQueue.Join();
  }

  /** The second loop: extend the product list with each result in turn. */
  method DrainResults(resultsQueue: ResultsQueue) returns (allProducts: seq<Product>)
    modifies resultsQueue
    ensures allProducts == Concat(old(resultsQueue.items)) && resultsQueue.items == []
  {
    allProducts := [];
    while !resultsQueue.Empty()
      invariant allProducts + Concat(resultsQueue.items) == Concat(old(resultsQueue.items))
      decreases |resultsQueue.items|
    {
      ghost var before := resultsQueue.items;
      var products := resultsQueue.Get();
      assert before == [products] + resultsQueue.items;
      ConcatFront(products, resultsQueue.items);
      allProducts := allProducts + products;
    }
  }

  /** parse_in_background: fill the page queue, run the workers, drain the
      results and build the saved report. */
  method ParseInBackground(req: ParseRequest, fetch: string -> Option<string>,
                           soup: string -> Option<seq<Card>>)
    returns (report: ThreadedReport, workers: nat)
    requires NumThreads(req) >= 1 || RequestPages(req) == []
    ensures report == ThreadedReportOf(req, fetch, soup)
    ensures workers == WorkerCount(req)
  {
    var url := RequestUrl(req);
    var numThreads := NumThreads(req);
    var pageQueue := FillPageQueue(url, StartPage(req), EndPage(req));
    var resultsQueue := new ResultsQueue();
    var m := Min(numThreads, pageQueue.QSize());
    workers := if m < 0 then 0 else m;
    RunWorkers(pageQueue, resultsQueue, workers, fetch, soup);
    var allProducts := DrainResults(resultsQueue);
    report := ThreadedReport(url, PagesParsed(req), numThreads, Summarize(allProducts));
  }

  /** Whatever order the worker threads finish their pages in, the saved
      `total_products` and `total_price` are those of the model. */
  lemma AnyArrivalOrderSameTotals(req: ParseRequest, fetch: string -> Option<string>,
                                  soup: string -> Option<seq<Card>>, arrived: seq<seq<Product>>)
    requires multiset(arrived) == multiset(Successes(RequestPages(req), fetch, soup))
    ensures Summarize(Concat(arrived)).totalProducts ==
            ThreadedReportOf(req, fetch, soup).summary.totalProducts
    ensures Summarize(Concat(arrived)).totalPrice ==
            ThreadedReportOf(req, fetch, soup).summary.totalPrice
  {
    TotalsIgnoreArrivalOrder(arrived, Successes(RequestPages(req), fetch, soup));
  }
}
