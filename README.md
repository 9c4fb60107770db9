# Hever branch crawlers, modelled in Dafny

The repository holds three scripts. Each one extracts the branches (name, address) of Israeli gift-card companies and writes them as CSV rows:

- **crawl_yellow.py** is a resumable crawl over many companies. It loads the company directory (name to numeric code) from a Redis cache, or discovers it from the directory page and stores it. It then visits every company whose `{sn}-status` is not `OK`. For each one it fetches the branch list with a bounded retry, stores `{sn}-data` and only then sets `{sn}-status` to `OK`. At the end it reads every company's branches back, drops the "internet" branches, and writes one row per remaining branch.
- **parse_blue.py** reads a saved HTML snapshot of a branch list. It skips the header child and reduces each raw address to the text before the parenthesised part.
- **crawl_raayonit.py** probes the elements `summary_row_1`, `summary_row_2`, … of one page until one is missing. It writes (name, address, "name, address") rows.

The model replaces the outside world:

- The browser becomes an oracle value. `YellowCrawl.Site` gives the landing of each navigation, the company divs and the successive branch-list polls. `Blue.Node` is the parsed document tree. `Raayonit.Page` maps ids to elements.
- Redis becomes `YellowCrawl.Store`, a class over a `map<string, Value>` with `Exists`, `Get` and `Set`.
- JSON becomes the identity on `Value`.
- A fatal exception becomes an `Err`.

Modules:

- `Results`: Option and Result.
- `Text`: Python's `in` on strings and `str.strip`.
- `YellowParse`: the pure pieces of crawl_yellow.py.
- `YellowCrawl`: discovery, the retry, the checkpoint store and loop, rendering and `main`.
- `Blue`: parse_blue.py.
- `Raayonit`: crawl_raayonit.py.

Points where the code does something other than its obvious reading, as the model states it:

- A branch is dropped when its name *or* its address contains "אינטרנטי", not only when its address does.
- parse_blue.py does not trim addresses: "Tel Aviv (Main St)" becomes "Tel Aviv ", with the trailing space.
- The address is the first maximal run of non-`(` characters. For a raw string that starts with `(` this is not "the text before the first `(`".
- `retries` below 1 still gives one attempt. The `retrying` library always makes the first attempt and stops once the attempt number reaches `stop_max_attempt_number`.
- The non-empty check applies only to a freshly discovered directory. A cached `sn-dict` is used as stored, even when it is empty.

## Model

| member | source | states |
|---|---|---|
| `Text.ContainsIff` | crawl_yellow.py:28 | the substring test holds exactly when the marker occurs at some position |
| `Text.Strip` | crawl_raayonit.py:19-20 | the result is no longer than the input and has no whitespace at either end |
| `Text.LeadingSpaceAll` | crawl_raayonit.py:19-20 | every leading character that `strip()` removes is whitespace |
| `Text.TrailingSpaceAll` | crawl_raayonit.py:19-20 | every trailing character that `strip()` removes is whitespace |
| `Text.StripSpec` | crawl_raayonit.py:19-20 | the result is a slice of the input, and only whitespace was cut off on both sides |
| `Text.StripIdempotent` | crawl_raayonit.py:19-20 | stripping twice equals stripping once |
| `YellowParse.NoInternetField` | crawl_yellow.py:27-28 | true exactly when no field contains the marker |
| `YellowParse.IsKeptIff` | crawl_yellow.py:27-28 | a branch is kept exactly when neither its name nor its address contains "אינטרנטי" at any position |
| `YellowParse.FilterInternet` | crawl_yellow.py:166 | the output holds exactly the kept branches of the input and is no longer than it |
| `YellowParse.FilterInternetAppend` | crawl_yellow.py:166 | filtering distributes over concatenation, so kept branches stay in stored order |
| `YellowParse.SnAtComplete` | crawl_yellow.py:31 | a match of the pattern at a position is what the scan finds there |
| `YellowParse.SnAtSound` | crawl_yellow.py:31 | what the scan finds at a position is a match of the pattern there |
| `YellowParse.SnAtIff` | crawl_yellow.py:31 | the computed match at a position equals the pattern's group 1 there: the prefix, then a non-empty digit run, then `)` |
| `YellowParse.FindSnSpec` | crawl_yellow.py:75-77 | a found code is the match at some position with no match at any earlier position; none is found only when no position matches |
| `YellowParse.ExtractSnSpec` | crawl_yellow.py:75-77 | the code is the non-empty digit group of the leftmost `javascript:gotoBranches(<digits>)`; there is no code exactly when the pattern occurs nowhere (the assertion fails) |
| `YellowParse.ExtractSnExample` | crawl_yellow.py:31 | `javascript:gotoBranches(1234)` yields `1234` |
| `YellowParse.Get` | crawl_yellow.py:37-47 | on success the current URL is the requested one; success iff landing there directly, or landing on a `signin.aspx` URL and arriving after sign-in; "Unknown state" iff the landing URL differs and does not contain `signin.aspx` |
| `YellowParse.ParseBranch` | crawl_yellow.py:109-115 | the header row yields None; any other element yields its branch, or fails when its nested cells are missing |
| `YellowParse.ParseBranchesSpec` | crawl_yellow.py:97-99 | parsing succeeds iff every non-header element is well formed; the result then lists their branches position by position, without the header |
| `YellowParse.ParseBranchesAppend` | crawl_yellow.py:98-99 | the elements parse piecewise and in order |
| `YellowParse.ConsBranchAppend` | crawl_yellow.py:98-99 | appending parsed branches behind one parse step gives the same list as appending them after the step: the step only puts its branch, or nothing, in front |
| `YellowParse.HeaderAnywhere` | crawl_yellow.py:110-111 | removing the header element from any position does not change the parse |
| `YellowParse.Attempt` | crawl_yellow.py:95-104 | an attempt succeeds with a non-empty parsed list, and does so whenever the list parses to a non-empty one |
| `YellowParse.Put` | crawl_yellow.py:81 | the names become the old names plus the new one; the length grows only for a new name |
| `YellowParse.PutFresh` | crawl_yellow.py:81 | a name not yet present is appended at the end of the directory |
| `YellowParse.PutDistinct` | crawl_yellow.py:81 | assigning a name keeps the directory's names distinct |
| `YellowParse.PutReplaces` | crawl_yellow.py:81 | assigning a name already present replaces its first entry in place, so every entry keeps its position |
| `YellowParse.PutExisting` | crawl_yellow.py:81 | with distinct names, re-assigning an entry's name changes only that entry's code |
| `YellowParse.PutLookup` | crawl_yellow.py:81 | after `d[name] = sn`, the name maps to `sn` and every other name keeps its code |
| `YellowParse.LookupNames` | crawl_yellow.py:81 | a name has a code exactly when it is in the directory |
| `YellowCrawl.ParseDiv` | crawl_yellow.py:73-77 | an entry parses iff it has a name and an href containing a code, and then pairs the name with that code |
| `YellowCrawl.DiscoveredOk` | crawl_yellow.py:72-83 | discovery succeeds iff every company div parses |
| `YellowCrawl.DiscoveredShape` | crawl_yellow.py:69-83 | the directory has distinct names, namely the names shown; it is never longer than the number of divs, and is non-empty when there is a div |
| `YellowCrawl.DiscoveredLastWins` | crawl_yellow.py:81 | a repeated name keeps the code of its last occurrence |
| `YellowCrawl.CrawlCompaniesSn` | crawl_yellow.py:61-66 | the result is the discovered directory, or the error of the redirect check or of the missing company list |
| `YellowCrawl.CollectEntries` | crawl_yellow.py:69-83 | the loop computes the directory of the divs, last name wins, or the error of the first bad div |
| `YellowCrawl.DiscoveredNext` | crawl_yellow.py:72-81 | one more div is one more discovery step |
| `YellowCrawl.Budget` | crawl_yellow.py:94 | exactly one attempt when `retries` is below 1, and exactly `retries` attempts otherwise |
| `YellowCrawl.RetryFromSpec` | crawl_yellow.py:94-106 | at most the budget of attempts; every attempt before the last failed; the outcome is the last attempt's; failure only after the whole budget is spent; success is non-empty |
| `YellowCrawl.RetryFirstSuccess` | crawl_yellow.py:94-106 | the first successful attempt within the budget is the result, after exactly that many attempts |
| `YellowCrawl.GetBranches` | crawl_yellow.py:94-106 | the retry loop makes between 1 and the budget of attempts, returns the first success, and raises only after the whole budget failed |
| `YellowCrawl.FetchNonEmpty` | crawl_yellow.py:86-106 | a fetched branch list is never empty |
| `YellowCrawl.CrawlCompanyBranches` | crawl_yellow.py:86-106 | navigate with the sign-in check, then the retried fetch; the result is non-empty |
| `YellowCrawl.KeysDistinct` | crawl_yellow.py:21-24 | status keys, data keys and `sn-dict` never collide, and each family is injective in the code |
| `YellowCrawl.Store.Set` | crawl_yellow.py:153-154 | the store maps the key to the new value, all else unchanged, and the write is logged |
| `YellowCrawl.LoadDirectory` | crawl_yellow.py:134-139 | the result is the load specification; a cached `sn-dict` is loaded unchanged with no discovery and no write; otherwise discovery must succeed non-empty and is stored |
| `YellowCrawl.CheckpointSkipsDone` | crawl_yellow.py:144-145 | a company already `OK` stays `OK`, keeps its stored data, and is never crawled |
| `YellowCrawl.CheckpointCompleted` | crawl_yellow.py:146-154 | every crawled company was not `OK` before; its fetch succeeded; its data is that fetch and its status is `OK`; no code is crawled twice |
| `YellowCrawl.CheckpointFrame` | crawl_yellow.py:141-154 | keys other than the crawled companies' data and status keys are untouched |
| `YellowCrawl.CheckpointAllDone` | crawl_yellow.py:141-154 | after a complete loop every directory code has status `OK`, and every company not `OK` before was crawled |
| `YellowCrawl.CheckpointFailureSticks` | crawl_yellow.py:149 | a failed fetch ends the loop with that failure |
| `YellowCrawl.CheckpointWritesOrder` | crawl_yellow.py:153-154 | each crawled company's data key is written immediately before its status key |
| `YellowCrawl.CrawlCompany` | crawl_yellow.py:141-154 | one turn of the loop: a company marked OK is skipped, otherwise it is crawled, then its data and then its status are written; a failed crawl writes nothing |
| `YellowCrawl.CheckpointWritesSnoc` | crawl_yellow.py:152-153 | crawling one more company adds its data key, then its status key |
| `YellowCrawl.CrawlCompanies` | crawl_yellow.py:141-154 | the loop leaves the store, the crawled list and the failure of the checkpoint specification, with the write order above |
| `YellowCrawl.CompanyRows` | crawl_yellow.py:166-169 | one row per kept branch in stored order, each `(company, branch name, branch address, company + " " + branch name)` |
| `YellowCrawl.RenderBodyAppend` | crawl_yellow.py:161-169 | the rows follow directory order: a directory's rows are its parts' rows concatenated |
| `YellowCrawl.RenderBodyRows` | crawl_yellow.py:161-169 | every row is a kept stored branch of some directory company, in the four-column shape |
| `YellowCrawl.Render` | crawl_yellow.py:157-169 | the header row, then the directory's rows; it stops at a company with no stored branch list |
| `YellowCrawl.Run` | crawl_yellow.py:118-171 | a failed load changes nothing and writes no rows; otherwise `dir` is the cached or the discovered directory, the final store and crawled list are the checkpoint loop's result from the store after loading, a crawl failure writes no rows, and a complete crawl writes the header and then the rendered rows, after which every code has status `OK` and only companies not `OK` before were crawled |
| `Blue.Tags` | parse_blue.py:15 | keeps exactly the tag nodes, in order |
| `Blue.TagsAppend` | parse_blue.py:15 | keeping tags distributes over concatenation |
| `Blue.TagsIgnoreText` | parse_blue.py:15-17 | inserting a text node anywhere does not change the tag positions |
| `Blue.AddressPrefix` | parse_blue.py:10 | no match iff every character is `(`; otherwise the result is non-empty, contains no `(`, starts after the leading `(` characters and runs to the next `(` or the end |
| `Blue.AddressBeforeParen` | parse_blue.py:18 | for a raw address that does not start with `(`, the result is the untrimmed text before the first `(` |
| `Blue.AddressExample` | parse_blue.py:18 | "Tel Aviv (Main St)" becomes "Tel Aviv " |
| `Blue.ParseItems` | parse_blue.py:16-19 | parsing succeeds exactly when the lookups and the address pattern all succeed; the name is then the text of the link in tag item 0, and the address is the address pattern's group applied to the text of the `span` in tag child 1 of tag item 2 |
| `Blue.ParseChild` | parse_blue.py:13-19 | parsing succeeds exactly when the child has a `row` div and the item lookups and the address pattern succeed; the name is the link text of its tag item 0, and the address is the address pattern's group of the `span` text in tag child 1 of its tag item 2, which contains no `(` |
| `Blue.ItemIgnoresText` | parse_blue.py:17 | text nodes among item 2's children do not shift its tag child 1 |
| `Blue.ParseRowIgnoresText` | parse_blue.py:15-17 | text nodes among a row's children do not change its parse |
| `Blue.ParseListAppend` | parse_blue.py:33-36 | children parse piecewise, rows in document order |
| `Blue.HeaderSkipped` | parse_blue.py:34-35 | the header child adds no row wherever it stands, whatever comes before it |
| `Blue.ParseListSingle` | parse_blue.py:36 | a data child adds exactly its own parsed row |
| `Blue.HeaderFirst` | parse_blue.py:34-35 | a header child in front adds no row |
| `Blue.ParseListPair` | parse_blue.py:33-36 | two data children give their two rows in order |
| `Blue.ListingChildParses` | parse_blue.py:13-19 | a child of the listing's shape, with a text node among the row's children, parses to its name and reduced address |
| `Blue.HeaderThenTwo` | parse_blue.py:33-36 | a header child followed by two data children gives exactly the two data rows |
| `Blue.SnapshotExample` | parse_blue.py:33-36 | a header and two stores give ("Store A", "Tel Aviv ") and ("Store B", "Haifa") |
| `Blue.PairRows` | parse_blue.py:41 | one two-column row per result, in order |
| `Blue.ParseSnapshot` | parse_blue.py:22-41 | a missing list is an error; otherwise success iff every child parses; the output is the header `('Name','Address')` followed by exactly the parsed rows, unfiltered |
| `Raayonit.ParseBusiness` | crawl_raayonit.py:18-21 | the stripped texts of div 1 and div 3; fails exactly when the element has fewer than three divs |
| `Raayonit.EnumeratedSnoc` | crawl_raayonit.py:44-47 | appending the row of the next id keeps the results the probes of ids 1, 2, ... in order |
| `Raayonit.Enumerate` | crawl_raayonit.py:38-49 | the results are the rows of ids 1..k in order, where id k+1 is the first missing or unparsable one; the logged count equals the number of results |
| `Raayonit.CsvRows` | crawl_raayonit.py:53-56 | the header `['Name','Address','Name+Address']`, then one row per result of the form `[name, address, name + ", " + address]` |

## Left out

- Selenium is not modelled: page loads, `sleep` waits, and the 1-second retry backoff. Only the number of attempts is kept.
- A navigation's landing depends only on the URL (`Site.nav`). Session expiry that strikes one visit to a URL but not another is therefore not expressible.
- `sign_in` (crawl_yellow.py:50-58) is not modelled as form filling. Its effect is the URL it leads to, or `None` when the form elements are missing.
- Redis connection handling, argparse, dotenv, environment variables and logging are left out. The logged count of crawl_raayonit.py is returned as `count` instead.
- JSON is the identity. Stored values are the `Value` variants, and a value of the wrong variant counts as a decoding failure.
- BeautifulSoup parsing is left out: the document is a given `Node` tree. `find` is a pre-order search of the descendants by tag name, id and class. `.text` concatenates the descendant texts.
- CSV quoting and encoding are left out: a row is a sequence of strings. Opening crawl_yellow.py's output in append mode is not modelled.
- `YellowParse.IsDigit`: `\d` is modelled as ASCII `0`-`9`. Python's `\d` also matches other Unicode decimal digits.
- `YellowCrawl.CompanyDiv`: a missing `href` attribute and a missing link element are merged into one failure. In Python the first is a TypeError and the second a NoSuchElementException; both are fatal.
- `Raayonit.Page` keys elements by number, not by the XPath id string `summary_row_<n>`. The page is finite, which makes the probing loop terminate.
- `YellowCrawl.Run`: it states the final store contents but not the order of the writes. That order is stated by `LoadDirectory` and `CrawlCompanies`.
- `YellowCrawl.CrawlCompanyBranches`: the second URL check after the 3-second wait (crawl_yellow.py:92) cannot fail in the model. A landing depends only on the URL, and the page does not change while the script waits. The AssertionError raised when the browser moves away during the wait is therefore not modelled.
