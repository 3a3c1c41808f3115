/** Date-range segmentation: re-running a saturated search once per 30-day creation window. */
module Segment {
  import opened Model
  import opened Search
  import opened Dedup

  /** The first days of the windows walked from `start` while before `now`: consecutive windows
      STEP_DAYS apart, as many as it takes to pass `now`. */
  function Windows(start: int, now: int): (r: seq<int>)
    ensures |r| == if start < now then (now - start + STEP_DAYS - 1) / STEP_DAYS else 0
    ensures forall k | 0 <= k < |r| :: r[k] == start + STEP_DAYS * k
    decreases now - start
  {
    if start < now then [start] + Windows(start + STEP_DAYS, now) else []
  }

  /** The windows tile the days from `start` to `now`: each window ends where the next begins,
      and every day in between lies in the window numbered by its distance to `start`. */
  lemma WindowsTile(start: int, now: int)
    ensures var w := Windows(start, now);
            && (forall k | 0 <= k < |w| - 1 :: w[k] + STEP_DAYS == w[k + 1])
            && (forall k | 0 <= k < |w| :: start <= w[k] < now)
            && (forall d | start <= d < now ::
                  WindowIndex(start, d) < |w| && w[WindowIndex(start, d)] <= d < w[WindowIndex(start, d)] + STEP_DAYS)
  {
    var w := Windows(start, now);
    forall k | 0 <= k < |w| ensures start <= w[k] < now {
      assert k < (now - start + STEP_DAYS - 1) / STEP_DAYS;
    }
  }

  /** The number of the window, walked from `start`, that holds day `d`. */
  function WindowIndex(start: int, d: int): int {
    (d - start) / STEP_DAYS
  }

  /** The search of one window: the base filter with its creation-date bounds. */
  function WindowQuery(project: string, base: Filter, from: int): Query {
    Query(project, base.(createdAfter := Some(from), createdBefore := Some(from + STEP_DAYS)))
  }

  /** Reference definition of the segmentation: one merged search per window, in order. */
  function SegmentFrom(project: string, base: Filter, starts: seq<int>, h: Harvest): Harvest
    decreases |starts|
  {
    if starts == [] then h
    else SegmentFrom(project, base, starts[1..], MergeQuery(WindowQuery(project, base, starts[0]), h))
  }

  /** Walks 30-day windows forward from `startDate` while before `now`, runs the search of each,
      and keeps (and marks as seen) only the issues whose key was not seen yet. */
  method FetchIssuesByDateRange(projectKey: string, filters: Filter, seenIssues: set<string>,
                                startDate: int, now: int, script: seq<Response>)
    returns (results: seq<Issue>, seen: set<string>, rest: seq<Response>, log: seq<Exchange>)
    ensures Harvest(results, seen, rest, log) ==
            SegmentFrom(projectKey, filters, Windows(startDate, now), Harvest([], seenIssues, script, []))
  {
    results, seen, rest, log := [], seenIssues, script, [];
    var d := startDate;
    while d < now
      invariant SegmentFrom(projectKey, filters, Windows(d, now), Harvest(results, seen, rest, log)) ==
                SegmentFrom(projectKey, filters, Windows(startDate, now), Harvest([], seenIssues, script, []))
      decreases now - d
    {
      var issues, r, l := FetchIssuesWithFilter(WindowQuery(projectKey, filters, d), rest);
      rest, log := r, log + l;
      results, seen := MergeNew(results, seen, issues);
      d := d + STEP_DAYS;
    }
  }

  /** Segmentation keeps the per-project invariant and only appends. */
  lemma {:induction false} SegmentKeepsValid(base: set<string>, project: string, f: Filter, starts: seq<int>, h: Harvest)
    requires ValidOver(base, h)
    ensures ValidOver(base, SegmentFrom(project, f, starts, h))
    ensures h.issues <= SegmentFrom(project, f, starts, h).issues
    ensures h.seen <= SegmentFrom(project, f, starts, h).seen
    decreases |starts|
  {
    if starts != [] {
      var h' := MergeQuery(WindowQuery(project, f, starts[0]), h);
      MergeQueryKeepsValid(base, WindowQuery(project, f, starts[0]), h);
      SegmentKeepsValid(base, project, f, starts[1..], h');
    }
  }

  /** Everything the window searches fetch, window after window, each search starting where
      the previous one stopped reading the answers. */
  function AllFetched(project: string, f: Filter, starts: seq<int>, rest: seq<Response>): seq<Issue>
    decreases |starts|
  {
    if starts == [] then []
    else
      var run := Paginate(WindowQuery(project, f, starts[0]), rest, 1, []);
      run.issues + AllFetched(project, f, starts[1..], run.rest)
  }

  /** Segmentation appends to the collected issues exactly the fresh issues of everything the
      window searches fetched, taken in fetch order. */
  lemma {:induction false} SegmentFetched(project: string, f: Filter, starts: seq<int>, h: Harvest)
    ensures SegmentFrom(project, f, starts, h).issues == h.issues + Fresh(h.seen, AllFetched(project, f, starts, h.rest))
    decreases |starts|
  {
    if starts == [] {
      assert h.issues + [] == h.issues;
    } else {
      var q := WindowQuery(project, f, starts[0]);
      var run := Paginate(q, h.rest, 1, []);
      SegmentFetched(project, f, starts[1..], MergeQuery(q, h));
      MergeThenFresh(h.issues, h.seen, run.issues, AllFetched(project, f, starts[1..], run.rest));
    }
  }

  /** Merging a batch and then filtering a later one against the grown seen set is filtering
      the two batches together. */
  lemma MergeThenFresh(issues: seq<Issue>, seen: set<string>, batch: seq<Issue>, later: seq<Issue>)
    ensures (issues + Fresh(seen, batch)) + Fresh(seen + Keys(Fresh(seen, batch)), later) ==
            issues + Fresh(seen, batch + later)
  {
    assert seen + Keys(Fresh(seen, batch)) == seen + Keys(batch);
    FreshAppend(seen, batch, later);
  }

  /** The date-range search returns exactly the first occurrences, in fetch order, of the
      issues its window searches fetched whose key was not seen before it: no two share a key,
      none was seen, every unseen fetched key is among them, and the seen set afterwards is the
      old one plus exactly the keys returned. */
  lemma DateRangeReturnsOnlyNew(project: string, f: Filter, seenIssues: set<string>, startDate: int, now: int, script: seq<Response>)
    ensures var h := SegmentFrom(project, f, Windows(startDate, now), Harvest([], seenIssues, script, []));
            var fetched := AllFetched(project, f, Windows(startDate, now), script);
            && h.issues == Fresh(seenIssues, fetched)
            && FirstOccurrences(h.issues, fetched)
            && Keys(h.issues) == Keys(fetched) - seenIssues
            && DistinctKeys(h.issues)
            && h.seen == seenIssues + Keys(h.issues)
  {
    var h0 := Harvest([], seenIssues, script, []);
    var fetched := AllFetched(project, f, Windows(startDate, now), script);
    assert Keys([]) == {};
    SegmentKeepsValid(seenIssues, project, f, Windows(startDate, now), h0);
    SegmentFetched(project, f, Windows(startDate, now), h0);
    assert [] + Fresh(seenIssues, fetched) == Fresh(seenIssues, fetched);
    FreshFirstOccurrences(seenIssues, fetched);
  }

  /** Running the windows of `a` then those of `b` is running the windows of `a + b`. */
  lemma {:induction false} SegmentAppend(project: string, f: Filter, a: seq<int>, b: seq<int>, h: Harvest)
    ensures SegmentFrom(project, f, a + b, h) == SegmentFrom(project, f, b, SegmentFrom(project, f, a, h))
    decreases |a|
  {
    if a == [] {
      assert a + b == b;
    } else {
      assert (a + b)[0] == a[0] && (a + b)[1..] == a[1..] + b;
      SegmentAppend(project, f, a[1..], b, MergeQuery(WindowQuery(project, f, a[0]), h));
    }
  }

  /** The issues the search of window `k` returns, the earlier windows having been run. */
  function WindowResult(project: string, f: Filter, starts: seq<int>, h: Harvest, k: nat): seq<Issue>
    requires k < |starts|
  {
    Paginate(WindowQuery(project, f, starts[k]), SegmentFrom(project, f, starts[..k], h).rest, 1, []).issues
  }

  /** No key returned by any window's search is lost. */
  lemma SegmentSeesEveryWindow(project: string, f: Filter, starts: seq<int>, h: Harvest)
    ensures forall k | 0 <= k < |starts| ::
              Keys(WindowResult(project, f, starts, h, k)) <= SegmentFrom(project, f, starts, h).seen
  {
    forall k | 0 <= k < |starts|
      ensures Keys(WindowResult(project, f, starts, h, k)) <= SegmentFrom(project, f, starts, h).seen
    {
      var before := SegmentFrom(project, f, starts[..k], h);
      var q := WindowQuery(project, f, starts[k]);
      var after := MergeQuery(q, before);
      assert starts == starts[..k] + ([starts[k]] + starts[k + 1..]);
      SegmentAppend(project, f, starts[..k], [starts[k]] + starts[k + 1..], h);
      assert SegmentFrom(project, f, [starts[k]] + starts[k + 1..], before) == SegmentFrom(project, f, starts[k + 1..], after);
      assert Keys(WindowResult(project, f, starts, h, k)) <= after.seen by {
        assert Keys(WindowResult(project, f, starts, h, k)) == Keys(Paginate(q, before.rest, 1, []).issues);
        assert Keys(Paginate(q, before.rest, 1, []).issues) <= after.seen by {
          var run := Paginate(q, before.rest, 1, []);
          assert after.seen == before.seen + Keys(Fresh(before.seen, run.issues));
        }
      }
      SeenGrows(project, f, starts[k + 1..], after);
    }
  }

  lemma {:induction false} SeenGrows(project: string, f: Filter, starts: seq<int>, h: Harvest)
    ensures h.seen <= SegmentFrom(project, f, starts, h).seen
    decreases |starts|
  {
    if starts != [] {
      SeenGrows(project, f, starts[1..], MergeQuery(WindowQuery(project, f, starts[0]), h));
    }
  }

  /** Segmentation completeness when no window saturates. Suppose the search of window `k`
      is served the pages of its full result list `served[k]`, fewer than
      MAX_ISSUES_PER_SEARCH issues, each page reporting the list's true size. Suppose also that
      every issue of `raw` was created between `start` and `now` and is listed by the window
      holding its creation day. Then after segmentation every key of `raw` has been seen. */
  lemma SegmentationCovers(project: string, f: Filter, raw: seq<Issue>, seenIssues: set<string>,
                           start: int, now: int, script: seq<Response>, served: seq<seq<Issue>>)
    requires |served| == |Windows(start, now)|
    requires forall k | 0 <= k < |served| :: |served[k]| < MAX_ISSUES_PER_SEARCH
    requires forall k | 0 <= k < |served| ::
               PagesOf(served[k], |served[k]|) <=
                 SegmentFrom(project, f, Windows(start, now)[..k], Harvest([], seenIssues, script, [])).rest
    requires forall x | x in raw :: x.creationDate.Some? && start <= x.creationDate.value < now
    requires forall x | x in raw :: x in served[WindowIndex(start, x.creationDate.value)]
    ensures Keys(raw) <= SegmentFrom(project, f, Windows(start, now), Harvest([], seenIssues, script, [])).seen
  {
    var starts := Windows(start, now);
    var h0 := Harvest([], seenIssues, script, []);
    SegmentSeesEveryWindow(project, f, starts, h0);
    forall x | x in raw ensures x.key in SegmentFrom(project, f, starts, h0).seen {
      var k := WindowIndex(start, x.creationDate.value);
      ServedWindow(project, f, starts, h0, k, served[k]);
      assert x.key in Keys(served[k]);
    }
  }

  /** A window whose search is served the pages of a result list below the ceiling returns
      exactly that list. */
  lemma ServedWindow(project: string, f: Filter, starts: seq<int>, h: Harvest, k: nat, items: seq<Issue>)
    requires k < |starts| && |items| < MAX_ISSUES_PER_SEARCH
    requires PagesOf(items, |items|) <= SegmentFrom(project, f, starts[..k], h).rest
    ensures WindowResult(project, f, starts, h, k) == items
  {
    var rest := SegmentFrom(project, f, starts[..k], h).rest;
    var pages := PagesOf(items, |items|);
    assert rest == pages + rest[|pages|..];
    PaginateComplete(WindowQuery(project, f, starts[k]), items, rest[|pages|..], 1, []);
    assert [] + items == items;
  }
}
