# Catalog parsers and line-count servers, modelled in Dafny

The repository holds two small pairs of servers.

- Task 1. Two catalog parsers: a threaded HTTP server and an aiohttp server. Each takes a JSON request (`url`, `start_page`, `end_page`, and for the threaded one `threads`). Each builds the page URLs, where page 1 is the bare URL and page n is `url?PAGEN_1=n`. Each turns every product card into a name, a price and a label. Each saves the number of products, the sum of their prices and the first 100 products. The threaded server fills a page queue, starts `min(num_threads, qsize)` workers and concatenates their per-page lists in arrival order. The async server awaits the pages one after the other.
- Task 2. Two socket servers, one threaded and one asyncio, which count the lines of the `.txt` files in a test directory. They answer `COUNT_ALL`, `COUNT_FILE <name>` or an unknown command. The threaded server counts processed requests and active connections; the asyncio server counts processed requests only. `config.py` generates the test directory.

The model has eight modules:

- `Common` (`common.dfy`) holds Python's whitespace class, `str(n)`, `str.strip()`, sums and concatenation, and permutation facts.
- `Catalog` (`catalog.dfy`) holds the card, price, URL, page and summary logic that both catalog servers share.
- `CatalogThreaded` (`catalog_threaded.dfy`) holds the two queues as classes, the worker drain and `parse_in_background`.
- `CatalogAsync` (`catalog_async.dfy`) holds `parse_multiple_pages` and `handle_parse`.
- `CatalogCompare` (`catalog_compare.dfy`) states what `compare_results` relies on: both servers give the same totals.
- `LineCount` (`line_count.dfy`) holds text-mode line iteration, `count_lines_in_file`, request parsing, the `COUNT_ALL` loop and the responses.
- `CountServers` (`count_servers.dfy`) holds both `handle_client` methods with their counters.
- `TestFiles` (`test_files.dfy`) holds `create_test_files` and the import-time guard.

Things outside the model are parameters:

- A page fetch is a function `url -> Option<html>`.
- The HTML library is a function from HTML to the list of cards, or `None` where it raises.
- A card is a record of optional stripped texts: the title with its optional link, the price text and the label.
- The test directory is a map from name to entry. An entry is a decoded text file or something that cannot be read. The names on which `open(..., 'w')` raises (sub-directories, files without write permission) are a fixed set; each of them is an entry.
- What `TEST_DIR.glob("*.txt")` yields is a listing argument: each `.txt` name once, in any order.
- What the socket received is an argument. So is whether sending the answer succeeds, and the text of a raised exception.

Four modelling choices follow the code more closely than a plain reading would:

- **Newlines.** `count_lines_in_file` opens files in text mode, and text mode uses universal newlines. So `"\r\n"` and a lone `"\r"` end a line just as `"\n"` does. The model translates them first (`LineCount.Translate`, which is `str.replace("\r\n", "\n")` followed by `str.replace("\r", "\n")`, as `LineCount.TranslateIsReplace` states) and then counts the lines. A plain count of `"\n"` plus one for a trailing unterminated line holds on the translated text (`LineCount.LineCountFormula`). On raw text containing `"\r"` it does not hold.
- **The price pattern.** `[\d\s]+(?=\s*₽)` is modelled with the regex engine's leftmost-start, greedy-then-backtrack search. `\s` is Python's full `str.isspace` set. Only `' '` is removed afterwards. `int()` then fails on the digit groups when they are separated by a no-break space, so such a price is 0 (`Catalog.NoBreakSpaceGroupedPriceIsZero`).
- **The thread pool.** The threaded pool runs as a sequence: the first worker drains the whole queue, and the later workers find it empty. Any other completion order is a permutation of the per-page lists, and the totals do not depend on it (`CatalogThreaded.AnyArrivalOrderSameTotals`).
- **Zero threads.** `parse_in_background` with `threads: 0` starts no worker when pages are queued, and `page_queue.join()` then never returns. `CatalogThreaded.ParseInBackground` requires the one case in which join returns: at least one thread, or no pages.

## Model

| member | source | states |
|---|---|---|
| Common.LStrip | task2_/threaded_server.py:49 | removes exactly the leading whitespace (Python `isspace`), the rest is a suffix of the input |
| Common.RStrip | task2_/threaded_server.py:49 | removes exactly the trailing whitespace, the rest is a prefix of the input |
| Common.Strip | task2_/threaded_server.py:49 | str.strip(): rstrip of lstrip, so both ends lose exactly their whitespace (the LStrip and RStrip contracts) and a text without whitespace at either end is kept (`LineCount.StripThenParse`) |
| Common.Replace | task2_/threaded_server.py:30 | str.replace: every occurrence of the pattern, found from the left without overlap, becomes the replacement; `LineCount.TranslateIsReplace` relates it to the newline translation |
| Common.NatToString | task2_/threaded_server.py:61 | the decimal text of a number is non-empty and all digits |
| Common.NatToStringRoundTrip | task2_/threaded_server.py:61 | reading the digits of `str(n)` back gives n |
| Common.IntToStringInjective | task2_/threaded_server.py:68 | different integers print differently (sign included) |
| Catalog.ParseProductCard | task1_/threaded_server.py:96-134 | a card yields None exactly when the HTML library raised on it; otherwise its name, price and label come from the title, price and label fields |
| Catalog.CardFieldDefaults | task1_/async_server.py:70-95 | no title gives "Без названия"; a title link wins over the title text; no label gives "" and a label is kept as is |
| Catalog.SkipSpaces | task1_/threaded_server.py:115 | the `\s*` of the lookahead: the first non-whitespace position at or after i |
| Catalog.RunEnd | task1_/threaded_server.py:115 | the greedy `[\d\s]+`: the end of the longest digit/space run from i |
| Catalog.Backtrack | task1_/threaded_server.py:115 | a match end it returns lies in the run and is followed by optional whitespace and '₽' |
| Catalog.SearchFrom | task1_/threaded_server.py:115 | a match it returns is a non-empty digit/space run followed by optional whitespace and '₽' |
| Catalog.PriceMatch | task1_/threaded_server.py:115-117 | the matched text is non-empty and made of digits and whitespace only |
| Catalog.RunEndCovers | task1_/threaded_server.py:115 | no digit/space run from i reaches past the greedy end |
| Catalog.BacktrackLongest | task1_/threaded_server.py:115 | backtracking keeps the longest end in (i, j] at which the lookahead holds, and gives none only when no end there has it |
| Catalog.SearchFromLeftmostLongest | task1_/threaded_server.py:115 | re.search from i: none exactly when no match starts at or after i; otherwise no match starts further left and none from the same start ends further right |
| Catalog.PriceMatchLeftmostLongest | task1_/threaded_server.py:115-117 | the matched text is the leftmost match of the pattern, taken as long as possible, and there is none when the pattern matches nowhere |
| Catalog.PriceMatchExists | task1_/threaded_server.py:115-116 | a match exists if and only if some '₽' directly follows a digit or whitespace character |
| Catalog.RemoveAsciiSpaces | task1_/threaded_server.py:117 | the result has no ' ' and holds exactly the other characters of the input |
| Catalog.RemoveAsciiSpacesCounts | task1_/threaded_server.py:117 | every character but ' ' is kept as often as it occurs, and ' ' not at all |
| Catalog.RemoveAsciiSpacesAppend | task1_/threaded_server.py:117 | removing the spaces of a concatenation concatenates the results, so the kept characters stay in order |
| Catalog.TrimIntSpace | task1_/threaded_server.py:119 | the whitespace int() skips is cut from both ends; `Catalog.TrimIntSpaceBounds` states the piece that is kept |
| Catalog.TrimIntSpaceBounds | task1_/threaded_server.py:119 | what is kept is one piece s[a..b]; everything cut is whitespace int() skips, and a non-empty piece neither starts nor ends with it |
| Catalog.IntFormIsTrim | task1_/threaded_server.py:119 | digits with only skipped whitespace around them are exactly the piece the trim keeps |
| Catalog.PyInt | task1_/threaded_server.py:118-121 | int() of the matched text, None where it raises; `Catalog.PyIntAccepts` characterises it |
| Catalog.PyIntAccepts | task1_/threaded_server.py:118-121 | int() succeeds exactly on ASCII digits surrounded by whitespace it skips (not '\x1c'..'\x1f'), and then gives the value of those digits |
| Catalog.ExtractPrice | task1_/threaded_server.py:110-121 | the price of a card: 0 without a price element, without a match or where int() raises, else int() of the match with ' ' removed (`Catalog.PriceZeroCases`, `Catalog.PriceRoundTrip`, `Catalog.FirstPriceWins`) |
| Catalog.PriceZeroCases | task1_/threaded_server.py:110-121 | the price is 0 with no price element, with no match, or when int() fails; a non-zero price is the int() value of the match with spaces removed |
| Catalog.NoRoubleNoPrice | task1_/async_server.py:81-91 | a price text with no '₽' right after a digit or whitespace gives 0 |
| Catalog.MatchBeforeRouble | task1_/threaded_server.py:115 | a non-empty run of digits and whitespace at the start of the text, right before "₽", is matched whole whatever follows |
| Catalog.PriceRoundTrip | task1_/async_server.py:83-91 | the price text "str(n) ₽", followed by anything, reads back as n |
| Catalog.NoBreakSpaceGroupedPriceIsZero | task1_/threaded_server.py:115-121 | "1", a no-break space (U+00A0), "234 ₽" gives 0: replace(' ', '') keeps the no-break space and int() fails |
| Catalog.AsciiSpaceGroupedPrice | task1_/threaded_server.py:115-121 | "1 234 ₽" gives 1234 |
| Catalog.FirstPriceWins | task1_/threaded_server.py:115-121 | of two prices in one text, "1500 ₽ 1200 ₽", the first is read: 1500 |
| Catalog.PageUrl | task1_/threaded_server.py:185-188 | page 1 is the bare URL and page n is url?PAGEN_1=n; `Catalog.PageUrlInjective` shows no two pages share a URL |
| Catalog.PageUrlInjective | task1_/threaded_server.py:185-188 | two page numbers with the same URL are equal (page 1 is the bare URL, others add ?PAGEN_1=n) |
| Catalog.PageUrls | task1_/threaded_server.py:184-189 | one URL per page of range(start, end + 1), in increasing page order, none when end < start |
| Catalog.PageUrlsDistinct | task1_/async_server.py:129-133 | no URL of a batch repeats |
| Catalog.CardProducts | task1_/threaded_server.py:146-150 | the products of the cards that parse, in card order; `Catalog.CardProductsCount` bounds and traces them |
| Catalog.CardProductsCount | task1_/threaded_server.py:146-150 | one product per parseable card, never more products than cards, each product comes from a card of the page |
| Catalog.PageOutcome | task1_/threaded_server.py:136-152 | [] without HTML or with empty HTML, a raise where the HTML library raises, else the card products; `Catalog.ParsePage` computes it card by card |
| Catalog.ParsePage | task1_/threaded_server.py:136-152 | the page parser returns [] without HTML, raises where the HTML library raises, and otherwise keeps the products of the cards that parse, in card order |
| Catalog.NoHtmlNoProducts | task1_/async_server.py:108-110 | a page whose fetch gives None (non-200 status or error) yields [] and does not raise |
| Catalog.Successes | task1_/threaded_server.py:154-166 | the lists the workers put, one per page that did not raise, in page order; `Catalog.SuccessesCount` counts them |
| Catalog.SuccessesCount | task1_/threaded_server.py:154-166 | exactly one result list per page that did not raise; one per page when none raises |
| Catalog.TotalPrice | task1_/threaded_server.py:218 | the total price is never negative |
| Catalog.Summarize | task1_/threaded_server.py:221-229 | total_products is the length and total_price the price sum of the whole list; the stored products are its first min(100, n) elements |
| Catalog.SummaryOfPages | task1_/threaded_server.py:209-218 | the totals of a concatenation are the sums of the per-page totals |
| Catalog.TotalsIgnoreArrivalOrder | task1_/threaded_server.py:209-218 | permuting the per-page result lists changes neither total |
| CatalogThreaded.PageQueue.constructor | task1_/threaded_server.py:183 | a new queue is empty with no unfinished task |
| CatalogThreaded.PageQueue.Put | task1_/threaded_server.py:189 | appends the URL and adds one unfinished task |
| CatalogThreaded.PageQueue.GetNowait | task1_/threaded_server.py:158 | takes the head of a non-empty queue; on an empty one yields None (queue.Empty) and changes nothing |
| CatalogThreaded.PageQueue.TaskDone | task1_/threaded_server.py:161 | lowers the unfinished count by one, the items stay |
| CatalogThreaded.PageQueue.Join | task1_/threaded_server.py:206 | join() returns only once every queued task is marked done (its requires) |
| CatalogThreaded.ResultsQueue.constructor | task1_/threaded_server.py:192 | a new result queue is empty |
| CatalogThreaded.ResultsQueue.Put | task1_/threaded_server.py:160 | appends one product list |
| CatalogThreaded.ResultsQueue.Get | task1_/threaded_server.py:211 | takes the head of the result queue |
| CatalogThreaded.ParsePageWorker | task1_/threaded_server.py:154-166 | the worker takes every queued URL once, marks each task done once whether it raised or not, puts one list per page that parsed, and stops only on an empty queue |
| CatalogThreaded.NumThreads | task1_/threaded_server.py:176 | num_threads is never above 10 nor above the requested count (5 without a request), and is one of the two |
| CatalogThreaded.WorkerCount | task1_/threaded_server.py:196 | the started workers are min(num_threads, pages): at most both, equal to one of them when any start, none when either is not positive |
| CatalogThreaded.FillPageQueue | task1_/threaded_server.py:183-189 | the queue holds the batch's page URLs in order, each an unfinished task |
| CatalogThreaded.RunWorkers | task1_/threaded_server.py:195-206 | after the workers and join, the page queue is empty and done, and the result queue holds the lists of the pages that parsed |
| CatalogThreaded.DrainResults | task1_/threaded_server.py:209-212 | the collected list is the concatenation of the queued result lists, and the queue ends empty |
| CatalogThreaded.ThreadedReportOf | task1_/threaded_server.py:218-229 | the saved report: request URL, "start-end", num_threads and the summary of the concatenated page lists; `CatalogThreaded.ParseInBackground` produces it |
| CatalogThreaded.ParseInBackground | task1_/threaded_server.py:168-230 | the saved report has the request URL, "start-end", threads_used = num_threads (not the worker count) and the summary of all products; the started workers are min(num_threads, pages) |
| CatalogThreaded.AnyArrivalOrderSameTotals | task1_/threaded_server.py:209-227 | whatever order the workers deliver their pages in, total_products and total_price are those of the report |
| CatalogAsync.Gather | task1_/async_server.py:125-142 | the awaited pages in order, raising as soon as one page raises; `CatalogAsync.GatherIsConcat` and `CatalogAsync.GatherRaisedExtends` state both cases |
| CatalogAsync.GatherRaisedExtends | task1_/async_server.py:129-142 | once a page raises, the whole batch raises |
| CatalogAsync.ParseMultiplePages | task1_/async_server.py:125-142 | the pages are visited in increasing order and the result is the batch's outcome over exactly those URLs |
| CatalogAsync.GatherIsConcat | task1_/async_server.py:129-142 | with no raising page the product list is the page-order concatenation of the per-page lists; with one, the batch raises |
| CatalogAsync.AsyncSaved | task1_/async_server.py:144-181 | the saved report, none when a page raised; `CatalogAsync.HandleParse` saves exactly this |
| CatalogAsync.HandleParse | task1_/async_server.py:144-207 | a report is saved exactly when the response is a success; the response carries the saved total_products and total_price and the "Найдено n товаров" message; an error response carries the exception text |
| CatalogCompare.SuccessesSameHtml | task1_/threaded_server.py:154-166 | the threaded page lists depend only on the HTML of the requested pages |
| CatalogCompare.GatherSameHtml | task1_/async_server.py:125-142 | the asyncio product list depends only on the HTML of the requested pages |
| CatalogCompare.VariantsAgree | task1_/run_all.py:339-354 | given the same HTML for every page and no raising page, both servers save totals whose differences are 0, for any arrival order in the threaded server, and the same "start-end" |
| CatalogCompare.RaisingPageSplitsVariants | task1_/async_server.py:202-207 | given the same HTML, a raising page leaves the async server with nothing saved while the threaded report counts the pages that parsed |
| LineCount.Translate | task2_/threaded_server.py:30 | text-mode reading leaves no "\r" and never lengthens the text |
| LineCount.TranslateIsReplace | task2_/threaded_server.py:30 | the text read equals the file text with every "\r\n", and then every remaining "\r", replaced by "\n" |
| LineCount.LoneCarriageReturnEndsLine | task2_/threaded_server.py:30-31 | a lone "\r" ends a line: "a\rb" reads as the lines "a\n" and "b" |
| LineCount.Lines | task2_/threaded_server.py:31 | the lines iteration yields: `LineCount.LinesJoin`, `LineCount.LinesForm` and `LineCount.LinesShape` state that they make up the text and end at each "\n" |
| LineCount.TranslateWithoutCarriageReturn | task2_/threaded_server.py:30 | text without "\r" reads back unchanged |
| LineCount.FirstLineLength | task2_/threaded_server.py:31 | the first line runs to and including the first "\n", or to the end |
| LineCount.LinesShape | task2_/threaded_server.py:31 | the lines are non-empty, join back to the text, and every line but the last ends with its only "\n" |
| LineCount.LineCountFormula | task2_/threaded_server.py:31 | the number of lines is the number of "\n" plus one if the text is non-empty and does not end with "\n" |
| LineCount.LinesAppend | task2_/threaded_server.py:31 | text ending with "\n" splits into lines independently of what follows |
| LineCount.FileLineCount | task2_/threaded_server.py:27-34 | the line count of a decoded file, -1 where opening or decoding raises; `LineCount.CountLinesInFile` computes it line by line |
| LineCount.CountLinesInFile | task2_/threaded_server.py:27-34 | -1 exactly for a missing or unreadable file, otherwise the number of lines the iteration yields |
| LineCount.IndexOf | task2_/threaded_server.py:64 | the position of the first occurrence, or None exactly when the character is absent |
| LineCount.SplitOnce | task2_/threaded_server.py:64 | split(" ", 1) gives one part without a space and otherwise two parts around the first space |
| LineCount.LinesJoin | task2_/threaded_server.py:31 | joining the lines gives the text back |
| LineCount.LinesForm | task2_/threaded_server.py:31 | every line is non-empty, and every line but the last ends with its only "\n" |
| LineCount.CountFileNameIsRest | task2_/threaded_server.py:63-64 | the file name is everything after "COUNT_FILE ", spaces included |
| LineCount.ParseCommand | task2_/threaded_server.py:51-72 | the dispatch on the stripped request; `LineCount.ParseCommandExact` and `LineCount.CountFileNameIsRest` state each branch |
| LineCount.ParseCommandExact | task2_/threaded_server.py:51-72 | COUNT_ALL exactly on "COUNT_ALL"; COUNT_FILE n exactly on "COUNT_FILE " + n |
| LineCount.StripThenParse | task2_/threaded_server.py:49-64 | a COUNT_FILE request whose name does not end in whitespace survives strip() and names that file |
| LineCount.CountAllFiles | task2_/threaded_server.py:51-59 | the loop's file count and line total are the sums over the listing of the readable files and of their line counts |
| LineCount.CountAllBounds | task2_/threaded_server.py:55-59 | 0 <= file_count <= number of listed files, and total_lines >= 0 |
| LineCount.CountAllOrderIrrelevant | task2_/async_server.py:46-50 | any two glob orders give the same file count and line total |
| LineCount.UnreadableNotCounted | task2_/async_server.py:47-50 | a file whose count is -1 adds to neither total |
| LineCount.CountAllUniform | task2_/threaded_server.py:55-59 | when every listed file has l lines, every file is counted and the total is files * l |
| LineCount.CommandResponse | task2_/threaded_server.py:51-72 | the answer to each command; `LineCount.CountFileResponseCases` and `LineCount.CountAllFiles` state its cases |
| LineCount.Respond | task2_/threaded_server.py:51-72 | the response to COUNT_ALL, COUNT_FILE or an unknown command, built as the handler builds it |
| LineCount.CountFileResponseCases | task2_/threaded_server.py:65-70 | "Файл X не найден" exactly for a missing name; otherwise "Строк в X: c" with c >= -1 and c = -1 exactly for an unreadable file |
| LineCount.CountFileTextInjective | task2_/threaded_server.py:68 | different counts give different COUNT_FILE answers |
| LineCount.UnreadableFileReportsMinusOne | task2_/async_server.py:58-60 | an existing file that cannot be read is answered "Строк в X: -1" |
| CountServers.ThreadedResponse | task2_/threaded_server.py:45-72 | no response exactly when nothing was received or decoding raised |
| CountServers.ThreadedSocketServer.constructor | task2_/threaded_server.py:18-23 | the counters start at 0 |
| CountServers.ThreadedSocketServer.HandleClient | task2_/threaded_server.py:36-86 | active_connections is unchanged after every call, early return and exception included; requests_processed grows by 1 exactly when a response was sent |
| CountServers.AsyncWrites | task2_/async_server.py:36-77 | on decoded text the first write is the response to the stripped request, and it is the only one when writing succeeds; on a failed write the second is the error text; on a decode error the one write is the error text |
| CountServers.AsyncSocketServer.constructor | task2_/async_server.py:16-20 | the counter starts at 0 |
| CountServers.AsyncSocketServer.HandleClient | task2_/async_server.py:31-77 | writes as above; requests_processed grows by 1 exactly on the success path |
| CountServers.ServersAgreeOnCommands | task2_/async_server.py:41-62 | on a non-empty COUNT_ALL or COUNT_FILE request both servers send the same text |
| CountServers.ServersDifferOnUnknown | task2_/async_server.py:64-65 | an unknown or empty request gets the usage text from the async server; the threaded one answers "Неизвестная команда", or nothing for empty input |
| CountServers.AsyncErrorsArePrefixed | task2_/async_server.py:73-77 | after an exception the last write is "ОШИБКА: " followed by the exception text |
| CountServers.ErrorTextIsNotAnAnswer | task2_/async_server.py:75 | an error text never equals a COUNT_ALL or COUNT_FILE answer |
| TestFiles.FileName | task2_/config.py:19 | file_i.txt; `TestFiles.FileNameInjective` and `TestFiles.FileNameIsTxt` state it is one-to-one and a .txt name |
| TestFiles.FileContent | task2_/config.py:21-22 | the lines "Line j in file i\n" for j below lines_per_file; `TestFiles.WrittenLines` and `TestFiles.GeneratedLines` state them |
| TestFiles.GeneratedFiles | task2_/config.py:18-22 | the files the loop writes; `TestFiles.GeneratedKeys` and `TestFiles.GeneratedValues` state names and contents |
| TestFiles.WithTestFiles | task2_/config.py:18-22 | the directory afterwards: generated files replace same-named entries and others stay (`TestFiles.CreateTestFilesKeepsOthers`) |
| TestFiles.FileNameInjective | task2_/config.py:19 | different indices give different file names |
| TestFiles.FileNameIsTxt | task2_/config.py:19 | every generated name matches *.txt |
| TestFiles.GeneratedEntries | task2_/config.py:18-22 | the generated names are exactly file_0.txt .. file_{n-1}.txt, each with its own content |
| TestFiles.GeneratedKeys | task2_/config.py:18-19 | every generated name is file_i.txt for some i below num_files |
| TestFiles.GeneratedValues | task2_/config.py:18-22 | each file_i.txt for i below num_files is generated with its own content |
| TestFiles.GeneratedFileCount | task2_/config.py:18-19 | exactly num_files files are created |
| TestFiles.WrittenLines | task2_/config.py:21-22 | lines_per_file lines are written to each file |
| TestFiles.GeneratedLines | task2_/config.py:20-22 | reading a generated file back yields exactly the lines written, "Line j in file i\n" for j in order |
| TestFiles.SingleLine | task2_/config.py:22 | one written line reads back as one line ending in "\n" |
| TestFiles.GeneratedLineCount | task2_/config.py:21-22 | a generated file counts back to lines_per_file |
| TestFiles.NoCarriageReturn | task2_/config.py:22 | generated content holds no "\r", so text mode leaves it as written |
| TestFiles.TestDirectory.constructor | task2_/config.py:12-13 | the directory starts with the given entries and the names that refuse writing, each of them an entry |
| TestFiles.WrittenCount | task2_/config.py:18-20 | the files written before an open raises: every name below the count is writable, and the name at the count, when below num_files, is refused |
| TestFiles.TestDirectory.CreateTestFiles | task2_/config.py:16-22 | it finishes exactly when no file_i.txt below num_files refuses writing, and then every generated file is written over; otherwise it raises with the files before the first refused one written |
| TestFiles.TestDirectory.WriteFile | task2_/config.py:19-22 | open raises exactly on a refused name and then nothing changes; otherwise file_i.txt afterwards holds exactly the lines 0 .. lines_per_file-1 written in order, and no other entry changes |
| TestFiles.TestDirectory.ImportGuard | task2_/config.py:25-26 | the default 50 files of 100 lines are created exactly when no .txt file exists, and then no open raises |
| TestFiles.NoTxtNoneRefused | task2_/config.py:25-26 | without .txt entries no generated name can refuse writing |
| TestFiles.GlobEmptyIffNoTxt | task2_/config.py:25 | for every order the glob may yield, the listing is empty exactly when no entry is a .txt file |
| TestFiles.CreateTestFilesIdempotent | task2_/config.py:19-20 | generating twice gives the directory generating once gives ('w' overwrites) |
| TestFiles.CreateTestFilesKeepsOthers | task2_/config.py:18-20 | entries not named file_i.txt are untouched |
| TestFiles.TxtFilesAfterCreate | task2_/config.py:25-26 | in a directory without .txt files, the .txt files after generation are exactly the generated ones |
| TestFiles.GeneratedCountsInDirectory | task2_/config.py:21-22 | a generated file, seen in the directory, counts lines_per_file lines |
| TestFiles.CountAllAfterCreate | task2_/config.py:16-22 | COUNT_ALL on a freshly generated directory reports num_files files and num_files * lines_per_file lines, in any glob order |
| TestFiles.CountAllAfterImport | task2_/config.py:25-26 | after the import guard on a directory without .txt files, COUNT_ALL reports 50 files and 5000 lines |

## Left out

- HTTP and socket plumbing is not modelled. That covers request routing, status codes, the `/status` endpoint, accept/recv/send/close and `asyncio.start_server`. It is I/O around the logic above.
- Network fetching and BeautifulSoup traversal are foreign libraries. They are parameters: a fetch result `Option<html>`, and a card list or a raise per page.
- Real concurrency is not modelled. That covers thread interleavings, `stats_lock`, `ThreadPoolExecutor`, `asyncio.sleep` and the daemon flag. Results are stated for any arrival order instead.
- The sample `products` of the threaded report follows one fixed order, page order. The real sample depends on which worker finishes first; only the totals are proved order-independent.
- Timestamps, `execution_time`, rounding and the printed progress use clocks and floats.
- JSON parsing is not modelled: the 400 "Неверный JSON" answer of the async server and the type checks of `data.get(...)`. A request field is taken to be present with an integer or string value, or absent.
- `parse_in_background`'s own exception handler writes an error file. It is not reached by the modelled paths: a raising page is caught inside the worker.
- `\d` and `int()` also accept non-ASCII decimal digits. The model takes ASCII digits only.
- Reading is limited to `BUFFER_SIZE` bytes. A request longer than 4096 bytes would be cut; the model takes the whole request.
- `TestFiles.TestDirectory`: the names that refuse `open(..., 'w')` are fixed when the directory is made and are existing entries. A name that cannot be created for another reason (a missing directory, a full disk) is not modelled.
- `Catalog.PriceRoundTrip`: CPython limits `int()` to 4300 digits by default (`sys.get_int_max_str_digits`) since 3.11 and the 3.10.7, 3.9.14, 3.8.14 and 3.7.14 security releases, and the bare `except` then gives 0. The model reads any number of digits, as CPython does without the limit (releases before those fixes, or after `sys.set_int_max_str_digits(0)`); so prices of 10^4300 and more read back as n only there.
- `CatalogCompare.VariantsAgree`: the two servers fetch with different clients and headers and at different times; the comparison is stated for a site that answers both with the same HTML, and nothing is promised when it does not.
- `LineCount.CommandResponse`: `file_path.exists()` itself raises on an OS error other than a missing file (a name longer than the file system allows, for one). The threaded server then sends nothing, and the asyncio server sends the error text; neither counts the request. The model takes every name to be one the OS accepts.
- Path joining (`TEST_DIR / filename`) is not modelled; names are flat keys. A name with "/" or ".." can reach other files, and `COUNT_FILE .` names the test directory itself, which `exists()` accepts and opening raises on, so the servers answer "Строк в .: -1" where the model answers "Файл . не найден" (a sub-directory of the test directory is an unreadable entry and is answered -1, as the servers do).
- `TestFiles.FileContent`: `open(file_path, 'w')` is a text-mode write, so each "\n" written becomes `os.linesep`. The stored text is what was written, with `os.linesep` taken as "\n"; on Windows the file holds "\r\n", and reading it back with universal newlines (`LineCount.TranslateIsReplace`) gives the same lines. `TestFiles.TestDirectory.WriteFile` and `TestFiles.NoCarriageReturn` speak of the text as written.
- `CountServers.AsyncSocketServer.HandleClient`: writing the error text inside `except` is assumed to succeed. If it raised too, the exception would leave the handler.
- `run_all.py`, the test clients, `client.py` statistics, plotting and `MemoryEstimator` are process supervision, UI and float arithmetic.
