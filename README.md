# SonarCloud issue export: a verified model

This project models, in Dafny, the core of a small web application that exports every issue
of a set of SonarCloud projects.

The server side is an issue-harvesting engine. The SonarCloud search API serves at most
10 000 issues per filter, 500 per page. To work around that ceiling, the engine runs
several passes of filtered searches over one project:

1. one search per severity; a severity that hits the ceiling is re-run as a sequence of
   30-day creation-date windows;
2. one search per type;
3. one search per status;
4. only for projects with at least 40 000 issues, one search per severity × type pair.

All passes share one set of seen issue keys, so each issue is kept once. The request
handler validates its input, harvests each selected project in turn and concatenates the
results. It then builds a summary, or returns the partial results collected so far when a
harvest throws.

The client side shapes the exported report:

- the guard that refuses an export with no project selected;
- the severity breakdown and the statistics;
- grouping by project and the spreadsheet sheet names (sanitised, de-duplicated by a
  `_k` suffix loop);
- the PDF table (header, at most 1000 issue rows, an overflow row) and its row colours.

Modules:

- `Model` (model.dfy): issues, filters, queries, the remote API's answers, and the
  harvest state.
- `Search` (search.dfy): the paginated search loop.
- `Dedup` (dedup.dfy): merging by unseen key.
- `Segment` (segment.dfy): the 30-day date windows.
- `Planner` (planner.dfy): the multi-pass planner.
- `Handler` (handler.dfy): the POST handler.
- `Export` (export.dfy): report shaping.

The remote search API is a *script*: the finite sequence of answers it gives, in the order
requests are sent. Each answer is a page (`Page(issues, total)`), a rate-limit refusal
(`RateLimited`, HTTP 429) or any other failure (`Failed`). Once the script is exhausted,
every request fails. Every loop is an imperative method with invariants. Each method is
proved equal to a reference function (`Paginate`, `SegmentFrom`, `Plan`, `Gather`,
`Respond`), and the properties are lemmas about those functions. Each search also records
the exchanges it made (request: query and page; response), so page order and window bounds
can be stated. Dates are day numbers, and the current day `now` is a parameter.

## Model

| member | source | states |
|---|---|---|
| Search.FetchIssuesWithFilter | src/app/api/sonar-issues/route.ts:21-66 | the paginated loop (page, hasMorePages, issues) computes exactly the reference search `Paginate` from page 1 with nothing collected |
| Search.PaginateTranscript | src/app/api/sonar-issues/route.ts:33-65 | the issues returned are the pages received, concatenated in fetch order; the k-th request gets the k-th answer; every request carries the search's own query; the unconsumed answers are the rest of the script |
| Search.PaginatePages | src/app/api/sonar-issues/route.ts:35-59 | the first request asks for the starting page; after a 429 the same page is asked again, after any other answer the next page, so no page is skipped or counted twice |
| Search.PaginateStops | src/app/api/sonar-issues/route.ts:33-62 | every answer but the last lets the loop continue and the last one stops it: stops are exactly an empty page, a page shorter than 500, min(total, 10000) reached, or a non-429 failure (which raises nothing and keeps what was collected) |
| Search.FetchWithinCeiling | src/app/api/sonar-issues/route.ts:33-53 | if no page holds more than 500 issues, one search returns at most 10 000 issues |
| Search.PaginateWithinCeiling | src/app/api/sonar-issues/route.ts:33-53 | the same bound from any state holding a whole number of pages of at most the ceiling |
| Search.PaginateComplete | src/app/api/sonar-issues/route.ts:33-53 | a search served the consecutive 500-issue pages of a list of fewer than 10 000 issues, each reporting the list's size, returns exactly that list in order, whatever answers follow |
| Search.RetryTransparent | src/app/api/sonar-issues/route.ts:56-60 | inserting a 429 anywhere in the answers does not change the issues a search returns |
| Dedup.Fresh | src/app/api/sonar-issues/route.ts:127-132 | the issues kept from a batch have pairwise distinct keys, none already seen; seen plus their keys equals seen plus all the batch's keys; each comes from the batch |
| Dedup.FreshFirstOccurrences | src/app/api/sonar-issues/route.ts:127-132 | the issues kept are exactly the first occurrences of their keys in the batch, in batch order |
| Dedup.FreshAppend | src/app/api/sonar-issues/route.ts:127-132 | filtering two batches one after the other against a shared seen set is filtering their concatenation |
| Dedup.MergeNew | src/app/api/sonar-issues/route.ts:127-132 | the merge loop appends exactly the fresh issues to the project list and adds exactly their keys to the seen set |
| Dedup.MergeQueryKeepsValid | src/app/api/sonar-issues/route.ts:136-144 | merging one search keeps the seen set equal to (keys before) plus the collected keys, keeps keys distinct, only appends, and loses no key the search returned |
| Segment.Windows | src/app/api/sonar-issues/route.ts:78 | the window starts are start, start+30, ..., there are ceil((now - start)/30) of them, and none when start >= now |
| Segment.WindowsTile | src/app/api/sonar-issues/route.ts:78-82 | each window ends where the next starts, every window start lies in [start, now), and every day in [start, now) falls in the window numbered by its offset / 30 |
| Segment.FetchIssuesByDateRange | src/app/api/sonar-issues/route.ts:68-101 | the date loop runs one merged search per window, with the base filter plus createdAfter = d and createdBefore = d + 30, and computes exactly the reference `SegmentFrom` over `Windows(start, now)` |
| Segment.DateRangeReturnsOnlyNew | src/app/api/sonar-issues/route.ts:86-100 | the date-range result is exactly the first occurrences, in fetch order, of the issues the window searches fetched whose key was not seen before; its keys are distinct and are exactly the fetched keys minus the seen ones; the seen set afterwards is the old one plus exactly the keys returned |
| Segment.SegmentFetched | src/app/api/sonar-issues/route.ts:86-97 | segmentation appends exactly the fresh issues of everything the window searches fetched, window after window, each search starting where the previous one stopped |
| Segment.SegmentSeesEveryWindow | src/app/api/sonar-issues/route.ts:86-97 | every key returned by any window's search ends up in the seen set |
| Segment.SegmentationCovers | src/app/api/sonar-issues/route.ts:78-97 | if no window saturates, that is, each window's search is served the pages of its full result list of fewer than 10 000 issues, and each issue created in [start, now) is listed by the window holding its creation day, then every such issue's key is seen after segmentation |
| Segment.ServedWindow | src/app/api/sonar-issues/route.ts:86-90 | a window whose search is served the pages of a list of fewer than 10 000 issues returns exactly that list, whatever the earlier windows consumed |
| Planner.EarliestCreation | src/app/api/sonar-issues/route.ts:112-118 | the earliest creation day of a result: present exactly when the result is non-empty and every date parses; it is one of the dates and no date is earlier |
| Planner.FetchAllProjectIssues | src/app/api/sonar-issues/route.ts:103-171 | the planner computes exactly the reference `Plan`: severity pass, then type pass, then status pass, then the cross pass only when at least 40 000 issues were collected; an unparseable date in a saturated severity makes it throw |
| Planner.RunSeverityPass | src/app/api/sonar-issues/route.ts:107-134 | the severity loop: a result of 10 000 or more is not merged; date segmentation from its earliest creation day is merged instead; any other result is merged |
| Planner.RunLaterPasses | src/app/api/sonar-issues/route.ts:136-168 | after the severity pass: the type pass, then the status pass, then the severity × type pass only when at least 40 000 issues were collected |
| Planner.RunQueries | src/app/api/sonar-issues/route.ts:136-154 | the type and status loops merge one search per value, in order, into the same seen set |
| Planner.RunCrossPass | src/app/api/sonar-issues/route.ts:156-168 | the nested severity × type loops merge the 20 searches, severities outermost |
| Planner.CrossQueryAt | src/app/api/sonar-issues/route.ts:157-159 | cross query number 4·s + t pairs severity s with type t |
| Planner.SeverityStepKeepsValid | src/app/api/sonar-issues/route.ts:107-134 | one severity, escalated or not, keeps the seen set equal to the collected keys plus the base keys and the keys distinct, and only appends |
| Planner.SeverityPassKeepsValid | src/app/api/sonar-issues/route.ts:107-134 | the same invariant and append-only property over the whole severity pass |
| Planner.MergeQueriesKeepsValid | src/app/api/sonar-issues/route.ts:136-168 | the same invariant and append-only property over a pass without escalation |
| Planner.PlanKeepsKeysDistinct | src/app/api/sonar-issues/route.ts:103-171 | when the harvest of a project succeeds, the seen set equals the set of collected keys and no two collected issues share a key; the severity pass result stays, in order, at the head of the final list |
| Planner.PlanCrossOnlyWhenLarge | src/app/api/sonar-issues/route.ts:156-168 | if any severity × type search was sent, the project had at least 40 000 issues after the status pass, before the first of them, and ends with at least that many |
| Handler.Post | src/app/api/sonar-issues/route.ts:4-203 | the handler computes exactly the reference `Respond`: 400 "Parâmetros inválidos" on bad input; otherwise the projects in order, with a 500 carrying the exception's message and the partial results if one throws, else the issues and the summary |
| Handler.RejectsBeforeFetching | src/app/api/sonar-issues/route.ts:8-10 | a missing or empty token or a non-array key list gives the 400 reply whatever the remote side would answer |
| Handler.GatherChains | src/app/api/sonar-issues/route.ts:173-176 | the collected list is the completed projects' results concatenated in request order; each project's harvest starts where the previous one stopped; the loop stops early exactly when a harvest throws |
| Handler.BlocksDistinct | src/app/api/sonar-issues/route.ts:173-176 | every completed project's result has distinct keys, equal to its own seen set |
| Handler.HarvestedReply | src/app/api/sonar-issues/route.ts:173-188 | a 200 reply holds every project's result concatenated in request order, with nothing removed across projects; totalIssues is the number of issues, projectsProcessed the number of keys, and each key's issuesCount the number of issues whose component starts with the key |
| Handler.ErrorKeepsCompletedProjects | src/app/api/sonar-issues/route.ts:189-202 | a 500 reply carries the message of the failing project's exception; partialResults is null exactly when nothing was collected, and otherwise holds the completed projects' issues and their count |
| Handler.CountPrefixedIsCardinality | src/app/api/sonar-issues/route.ts:185 | the per-key count is the number of positions whose issue has a component starting with the key |
| Handler.Summarize | src/app/api/sonar-issues/route.ts:178-187 | the summary has one entry per selected key, in order; totals are the issue and key counts; each count is at most the total |
| Handler.SummaryExample | src/app/api/sonar-issues/route.ts:178-187 | issues with components "proj-a:src/x" and "proj-b:src/y" and keys proj-a and proj-b give a count of 1 each and a total of 2 |
| Handler.StatusCode | src/app/api/sonar-issues/route.ts:9-201 | the status is 200 exactly for a successful reply |
| Export.ExportScreen.Start | src/services/handleExport.ts:17-29 | with no key selected, only the warning toast is added and the export does not proceed; otherwise the step becomes "exporting", loading is on and progress is 0 |
| Export.Tally | src/services/handleExport.ts:47-51 | the counting reduce yields distinct labels, exactly the labels that occur, each with its number of occurrences, and counts that sum to the number of items |
| Export.BumpSpec | src/services/handleExport.ts:48-50 | counting one more label adds the label, keeps labels distinct, raises that label's count by one and the total by one |
| Export.BreakdownCounts | src/services/handleExport.ts:44-52 | each breakdown entry counts the issues of its severity, with a missing severity counted as "UNKNOWN"; every severity that occurs has an entry and no other does; the counts sum to the number of issues |
| Export.Stats | src/services/handleExport.ts:44-52 | totalIssues is the number of issues, equal to the breakdown's sum; projectCount is the number of selected keys |
| Export.GroupByProject | src/services/handleExport.ts:71-76 | one group per project, with a missing project grouped under "SemProjeto"; keys are distinct and are exactly the labels present; each group is non-empty and holds its project's issues in original order; sizes sum to the number of issues |
| Export.AddSpec | src/services/handleExport.ts:72-74 | adding an issue adds its label, keeps keys distinct, appends it to its own group only, and grows the total size by one |
| Export.GroupsPartition | src/services/handleExport.ts:71-76 | the groups partition the issues: each issue is in a group, every member of a group has that group's label, and the sizes add up to the number of issues |
| Export.Sanitize | src/services/handleExport.ts:83 | the sanitised name contains none of : \ / ? * [ ] and has at most 31 characters; it is the first min(31, n) characters of the key with those characters removed |
| Export.SanitizeIdempotent | src/services/handleExport.ts:83 | sanitising a sanitised name changes nothing |
| Export.DecimalRoundTrip | src/services/handleExport.ts:87 | the decimal numeral of a suffix number reads back as that number |
| Export.CandidateInjective | src/services/handleExport.ts:86-89 | distinct suffix numbers give distinct candidate names, so the loop never retries a name |
| Export.CandidateShape | src/services/handleExport.ts:83-88 | every candidate of a sanitised base is free of the forbidden characters, and has at most 31 characters while the suffix number has at most 30 digits |
| Export.UniqueSheetName | src/services/handleExport.ts:83-90 | the loop ends with an unused name: the base if it is free (suffix 0), otherwise base cut to 31 - len("_k") plus "_k" for the first k whose candidate is free; all earlier candidates were taken; k is at most one more than the number of names in use |
| Export.TriedShape | src/services/handleExport.ts:84-89 | the first n candidates are n distinct names |
| Export.NameSheets | src/services/handleExport.ts:79-92 | the sheet loop names every group in order, each name chosen against the names before it; all names are pairwise distinct and clean, and at most 31 characters long for fewer than 10^30 groups |
| Export.TableBody | src/services/handleExport.ts:116-137 | the table has one header row, then the row of each of the first min(n, 1000) issues in order, then one overflow row exactly when n > 1000; every row has 5 cells |
| Export.OverflowReportsRest | src/services/handleExport.ts:129-136 | the overflow row's text is "... e mais N issues", where N reads back as n - 1000 |
| Export.FillColor | src/services/handleExport.ts:145-149 | row 0 gets the header colour, other even rows light grey, odd rows none |
| Export.FillAlternates | src/services/handleExport.ts:145-149 | below the header, exactly one of two consecutive rows is filled, and the pattern repeats every two rows |

## Left out

- HTTP is not modelled: the axios calls, the Basic-auth header, URL building and the
  30-second timeout. The remote API is the finite script of answers described above.
- The 429 retry has no bound in the source. In the model each retry consumes one answer,
  and an exhausted script answers `Failed`, so a server that refuses forever is not
  modelled.
- The 100 ms and 2000 ms delays and the progress ticker are timing only and are not
  modelled.
- A page whose `issues` list is missing is modelled as an empty page; both end the search.
  A missing `total` is not modelled: `total` is always an integer. In the source a missing
  total makes `Math.min` give NaN, so the collected-count test never stops the loop; an
  empty or missing page, a short page, a non-429 failure and the 10 000 guard of the loop
  condition still do.
- Dates are day numbers. Local-time `setDate`, UTC `toISOString` and the day-string
  conversions are not modelled.
- `new Date()` is read at every date-range call in the source. The model reads `now` once
  per harvest.
- Planner.EarliestCreation: the source sorts dates that may include invalid ones (NaN
  comparisons), and the resulting order is engine-defined. The model takes a conservative
  reading: if any creation date in a saturated result fails to parse, the harvest throws
  "Invalid time value", as `toISOString` on an invalid date does. This is the only
  exception the model raises inside a harvest.
- The seen `Set` is passed by reference in the source. The model threads it by value
  through the date-range search and returns it.
- The request body is two values. `token` is `None` when missing or falsy. `selectedKeys`
  is `None` when it is not an array. Non-string array elements are not modelled, and
  neither is a body that fails to parse.
- In the source, a JavaScript object enumerates integer-like keys before the others. The
  model keeps insertion order for the breakdown and the grouping, so a severity or project
  named like an integer is listed in a different order.
- Export.GroupByProject: the source groups into a plain JavaScript object. A project named
  like an inherited property (`toString`, `constructor`, `valueOf`, `__proto__`, ...) makes
  `acc[key] ??= []` keep the inherited value, so `push` throws and the export ends in the
  error toast. The model gives such a project an ordinary group.
- Export.Tally: the severity breakdown is a plain JavaScript object too. A severity named
  like an inherited method (`constructor`, `toString`, ...) gets a string count (the
  method's text followed by "1"), and a `__proto__` severity is not counted. The model
  counts every severity label the same way, so `Export.BreakdownCounts` and `Export.Stats`
  hold only for ordinary labels in the source.
- Segment.SegmentationCovers: the model has no server-side store of issues, so it cannot
  derive from an issue's creation date that the window holding that day lists it. The lemma
  takes that listing and the full, unsaturated pages of each window as hypotheses.
- Strings are sequences of characters. JavaScript slices UTF-16 code units, so characters
  outside the Basic Multilingual Plane are not modelled.
- Export.NameSheets: the bound of 31 characters is stated for fewer than 10^30 groups.
  Beyond that, the suffix alone is longer than 31 characters; the source's `slice` with a
  negative end (modelled by `JsSliceTo`) then keeps a longer name.
- Not modelled from the rest of handleExport:
  - the request to the server and its status check;
  - `setExportStats`;
  - the progress updates;
  - the choice among the JSON, spreadsheet and PDF formats;
  - the success and error toasts;
  - the final `setLoading(false)`;
  - XLSX and pdfmake calls, blob download, document header and styles.
  These are I/O and UI calls into libraries that are not part of this model.
- Console logging, the React UI, handleFetch.ts, the project-listing route and the type
  declarations are not part of this model.
