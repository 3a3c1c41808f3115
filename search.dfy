/** The query executor: one paginated search against the remote issue-search API. */
module Search {
  import opened Model

  /** The outcome of one paginated search: the issues collected, the answers not consumed,
      and the exchanges made. */
  datatype PageRun = PageRun(issues: seq<Issue>, rest: seq<Response>, log: seq<Exchange>)

  /** Whether a non-empty page ends the search: it is short, or the issues collected
      (`collected`, counting this page) reach the reported total or the ceiling. */
  predicate IsLastPage(data: seq<Issue>, total: int, collected: nat) {
    |data| < PAGE_SIZE || collected >= Min(total, MAX_ISSUES_PER_SEARCH)
  }

  /** Whether the search asks for another page after getting `response` with `before` issues
      already collected: after a rate-limit refusal, or after a full page that is not the last. */
  predicate Continues(response: Response, before: nat) {
    match response
    case RateLimited => true
    case Failed => false
    case Page(data, total) => |data| > 0 && !IsLastPage(data, total, before + |data|)
  }

  /** The issues carried by the pages of a transcript, in the order they were received. */
  function Received(log: seq<Exchange>): seq<Issue> {
    if log == [] then [] else DataOf(log[0].response) + Received(log[1..])
  }

  /** The issues an answer carries. */
  function DataOf(response: Response): seq<Issue> {
    if response.Page? then response.issues else []
  }

  /** Reference definition of a search that is at `page` with `acc` collected and the answers
      `script` still to come. */
  function Paginate(q: Query, script: seq<Response>, page: nat, acc: seq<Issue>): PageRun
    decreases |script|
  {
    if |acc| >= MAX_ISSUES_PER_SEARCH then PageRun(acc, script, [])
    else if script == [] then PageRun(acc, [], [Exchange(Request(q, page), Failed)])
    else
      var x := Exchange(Request(q, page), script[0]);
      match script[0]
      case Failed => PageRun(acc, script[1..], [x])
      case RateLimited =>
        var r := Paginate(q, script[1..], page, acc);
        r.(log := [x] + r.log)
      case Page(data, total) =>
        if |data| == 0 then PageRun(acc, script[1..], [x])
        else if IsLastPage(data, total, |acc + data|) then PageRun(acc + data, script[1..], [x])
        else
          var r := Paginate(q, script[1..], page + 1, acc + data);
          r.(log := [x] + r.log)
  }

  /** `r` continued after the exchanges `before` were already made. */
  function After(before: seq<Exchange>, r: PageRun): PageRun {
    r.(log := before + r.log)
  }

  /** One step of the reference definition, seen from the loop: the answer to the next request
      and what the search does with it. */
  lemma PaginateStep(q: Query, script: seq<Response>, page: nat, acc: seq<Issue>)
    requires |acc| < MAX_ISSUES_PER_SEARCH
    ensures var x := Exchange(Request(q, page), AnswerAt(script, 0));
            var rest := if script == [] then [] else script[1..];
            Paginate(q, script, page, acc) ==
              match AnswerAt(script, 0)
              case Failed => PageRun(acc, rest, [x])
              case RateLimited => After([x], Paginate(q, rest, page, acc))
              case Page(data, total) =>
                if |data| == 0 then PageRun(acc, rest, [x])
                else if IsLastPage(data, total, |acc + data|) then PageRun(acc + data, rest, [x])
                else After([x], Paginate(q, rest, page + 1, acc + data))
  {
  }

  /** Fetches every page of one search, starting at page 1: retries a page refused for rate
      limiting, and stops on an empty page, a short page, the reported total or the ceiling,
      or any other failure (keeping what was collected). */
  method FetchIssuesWithFilter(q: Query, script: seq<Response>)
    returns (issues: seq<Issue>, rest: seq<Response>, log: seq<Exchange>)
    ensures PageRun(issues, rest, log) == Paginate(q, script, 1, [])
  {
    issues, rest, log := [], script, [];
    var page: nat := 1;
    var hasMorePages := true;
    while hasMorePages && |issues| < MAX_ISSUES_PER_SEARCH
      invariant hasMorePages ==> Paginate(q, script, 1, []) == After(log, Paginate(q, rest, page, issues))
      invariant !hasMorePages ==> Paginate(q, script, 1, []) == PageRun(issues, rest, log)
      decreases |rest|, hasMorePages
    {
      PaginateStep(q, rest, page, issues);
      var x := Exchange(Request(q, page), AnswerAt(rest, 0));
      var response := AnswerAt(rest, 0);
      ghost var log0 := log;
      log := log + [x];
      rest := if rest == [] then [] else rest[1..];
      match response {
        case Page(data, total) =>
          if |data| == 0 {
            break;
          }
          issues := issues + data;
          if |data| < PAGE_SIZE || |issues| >= Min(total, MAX_ISSUES_PER_SEARCH) {
            hasMorePages := false;
          } else {
            AfterAssoc(log0, [x], Paginate(q, rest, page + 1, issues));
            page := page + 1;
          }
        case RateLimited =>
          AfterAssoc(log0, [x], Paginate(q, rest, page, issues));
        case Failed =>
          hasMorePages := false;
      }
    }
    if hasMorePages {
      assert log + [] == log;
    }
  }

  /** The answers of a server that holds the result list `items`: consecutive pages of
      PAGE_SIZE issues, the last one holding what is left (possibly nothing), each reporting
      `total`. */
  function PagesOf(items: seq<Issue>, total: int): (r: seq<Response>)
    ensures |r| >= 1
    decreases |items|
  {
    if |items| <= PAGE_SIZE then [Page(items, total)]
    else [Page(items[..PAGE_SIZE], total)] + PagesOf(items[PAGE_SIZE..], total)
  }

  /** A search served the pages of a result list below the ceiling, each reporting its true
      size, returns that whole list, in order, whatever answers follow. */
  lemma {:induction false} PaginateComplete(q: Query, items: seq<Issue>, more: seq<Response>, page: nat, acc: seq<Issue>)
    requires |acc| + |items| < MAX_ISSUES_PER_SEARCH
    ensures Paginate(q, PagesOf(items, |acc| + |items|) + more, page, acc).issues == acc + items
    decreases |items|
  {
    var total := |acc| + |items|;
    var script := PagesOf(items, total) + more;
    if |items| <= PAGE_SIZE {
      assert script[0] == Page(items, total);
      assert acc + [] == acc;
    } else {
      var data, tail := items[..PAGE_SIZE], items[PAGE_SIZE..];
      assert script[0] == Page(data, total);
      assert script[1..] == PagesOf(tail, total) + more;
      assert !IsLastPage(data, total, |acc + data|);
      PaginateComplete(q, tail, more, page + 1, acc + data);
      assert |acc + data| + |tail| == total;
      assert (acc + data) + tail == acc + items;
    }
  }

  lemma AfterAssoc(a: seq<Exchange>, b: seq<Exchange>, r: PageRun)
    ensures After(a, After(b, r)) == After(a + b, r)
  {
    assert a + (b + r.log) == (a + b) + r.log;
  }

  /** The issues a search returns are those it started with followed by those of every page
      received, in the order received; the answers it consumed are a prefix of the script, every
      request carries the search's own query, and what is left of the script is the rest. */
  lemma PaginateTranscript(q: Query, script: seq<Response>, page: nat, acc: seq<Issue>)
    ensures var r := Paginate(q, script, page, acc);
            && r.issues == acc + Received(r.log)
            && (forall j | 0 <= j < |r.log| ::
                  r.log[j].response == AnswerAt(script, j) && r.log[j].request.query == q)
            && r.rest == script[Min(|r.log|, |script|)..]
  {
    TranscriptIssues(q, script, page, acc);
    TranscriptAnswers(q, script, page, acc);
    TranscriptRest(q, script, page, acc);
  }

  lemma {:induction false} TranscriptIssues(q: Query, script: seq<Response>, page: nat, acc: seq<Issue>)
    ensures var r := Paginate(q, script, page, acc);
            r.issues == acc + Received(r.log)
    decreases |script|
  {
    if |acc| < MAX_ISSUES_PER_SEARCH && script != [] {
      var r := Paginate(q, script, page, acc);
      var x := Exchange(Request(q, page), script[0]);
      match script[0]
      case Failed =>
      case RateLimited =>
        TranscriptIssues(q, script[1..], page, acc);
        assert r.log[1..] == Paginate(q, script[1..], page, acc).log;
      case Page(data, total) =>
        if |data| == 0 {
        } else if IsLastPage(data, total, |acc + data|) {
          assert r.log[1..] == [];
        } else {
          TranscriptIssues(q, script[1..], page + 1, acc + data);
          assert r.log[1..] == Paginate(q, script[1..], page + 1, acc + data).log;
        }
    }
  }

  lemma {:induction false} TranscriptAnswers(q: Query, script: seq<Response>, page: nat, acc: seq<Issue>)
    ensures var r := Paginate(q, script, page, acc);
            forall j | 0 <= j < |r.log| :: r.log[j].response == AnswerAt(script, j) && r.log[j].request.query == q
    decreases |script|
  {
    if |acc| < MAX_ISSUES_PER_SEARCH && script != [] {
      match script[0]
      case Failed =>
      case RateLimited => AnswersCons(q, script, page, page, acc, acc);
      case Page(data, total) =>
        if |data| > 0 && !IsLastPage(data, total, |acc + data|) {
          AnswersCons(q, script, page, page + 1, acc, acc + data);
        }
    }
  }

  /** The answers of a search that goes on after its first request are that request's answer
      followed by the answers of the rest of the search. */
  lemma {:induction false} AnswersCons(q: Query, script: seq<Response>, page: nat, next: nat, acc: seq<Issue>, acc': seq<Issue>)
    requires |acc| < MAX_ISSUES_PER_SEARCH && script != []
    requires Paginate(q, script, page, acc) == After([Exchange(Request(q, page), script[0])], Paginate(q, script[1..], next, acc'))
    ensures var r := Paginate(q, script, page, acc);
            forall j | 0 <= j < |r.log| :: r.log[j].response == AnswerAt(script, j) && r.log[j].request.query == q
    decreases |script|, 0
  {
    var r := Paginate(q, script, page, acc);
    var r' := Paginate(q, script[1..], next, acc');
    TranscriptAnswers(q, script[1..], next, acc');
    forall j | 1 <= j < |r.log| ensures r.log[j].response == AnswerAt(script, j) && r.log[j].request.query == q {
      assert r.log[j] == r'.log[j - 1];
      assert AnswerAt(script, j) == AnswerAt(script[1..], j - 1);
    }
  }

  lemma {:induction false} TranscriptRest(q: Query, script: seq<Response>, page: nat, acc: seq<Issue>)
    ensures var r := Paginate(q, script, page, acc);
            r.rest == script[Min(|r.log|, |script|)..]
    decreases |script|
  {
    if |acc| < MAX_ISSUES_PER_SEARCH && script != [] {
      match script[0]
      case Failed =>
      case RateLimited => RestCons(q, script, page, page, acc, acc);
      case Page(data, total) =>
        if |data| > 0 && !IsLastPage(data, total, |acc + data|) {
          RestCons(q, script, page, page + 1, acc, acc + data);
        }
    }
  }

  /** What is left after a search that goes on after its first request is what is left after
      the rest of the search. */
  lemma {:induction false} RestCons(q: Query, script: seq<Response>, page: nat, next: nat, acc: seq<Issue>, acc': seq<Issue>)
    requires |acc| < MAX_ISSUES_PER_SEARCH && script != []
    requires Paginate(q, script, page, acc) == After([Exchange(Request(q, page), script[0])], Paginate(q, script[1..], next, acc'))
    ensures var r := Paginate(q, script, page, acc);
            r.rest == script[Min(|r.log|, |script|)..]
    decreases |script|, 0
  {
    var r' := Paginate(q, script[1..], next, acc');
    TranscriptRest(q, script[1..], next, acc');
    assert script[1..][Min(|r'.log|, |script| - 1)..] == script[Min(|r'.log| + 1, |script|)..];
  }

  /** A search that has not yet reached the ceiling sends at least one request, the first for
      `page`; the next request is for the same page after a rate-limit refusal and for the next
      page after any other answer, so no page is skipped or asked for twice once answered. */
  lemma {:induction false} PaginatePages(q: Query, script: seq<Response>, page: nat, acc: seq<Issue>)
    requires |acc| < MAX_ISSUES_PER_SEARCH
    ensures var r := Paginate(q, script, page, acc);
            && |r.log| >= 1
            && r.log[0].request.page == page
            && forall j | 0 <= j < |r.log| - 1 ::
                 r.log[j + 1].request.page ==
                   r.log[j].request.page + (if r.log[j].response.RateLimited? then 0 else 1)
    decreases |script|
  {
    if script != [] {
      match script[0]
      case Failed =>
      case RateLimited =>
        PaginatePages(q, script[1..], page, acc);
      case Page(data, total) =>
        if |data| > 0 && !IsLastPage(data, total, |acc + data|) {
          PaginatePages(q, script[1..], page + 1, acc + data);
        }
    }
  }

  /** Every answer but the last makes the search go on, and the last one ends it: the search
      stops exactly on an empty page, a short page, the reported total or the ceiling being
      reached, or a failure other than rate limiting. */
  lemma {:induction false} PaginateStops(q: Query, script: seq<Response>, page: nat, acc: seq<Issue>)
    requires |acc| < MAX_ISSUES_PER_SEARCH
    ensures StopsAtEnd(Paginate(q, script, page, acc).log, |acc|)
    decreases |script|
  {
    var r := Paginate(q, script, page, acc);
    PaginateStep(q, script, page, acc);
    var x := Exchange(Request(q, page), AnswerAt(script, 0));
    if script == [] {
      assert r.log == [x];
      assert r.log[..0] == [];
    } else {
      match script[0]
      case Failed =>
        assert r.log == [x];
        assert r.log[..0] == [];
      case RateLimited =>
        var r' := Paginate(q, script[1..], page, acc);
        assert r.log == [x] + r'.log;
        PaginateStops(q, script[1..], page, acc);
        StopsAfterOne(x, |acc|, r'.log);
      case Page(data, total) =>
        if |data| > 0 && !IsLastPage(data, total, |acc + data|) {
          var r' := Paginate(q, script[1..], page + 1, acc + data);
          assert r.log == [x] + r'.log;
          PaginateStops(q, script[1..], page + 1, acc + data);
          StopsAfterOne(x, |acc|, r'.log);
        } else {
          assert r.log == [x];
          assert r.log[..0] == [];
        }
    }
  }

  /** Every exchange of `log` but the last makes the search go on, and the last one ends it,
      `before` issues having been collected when the first was made. */
  ghost predicate StopsAtEnd(log: seq<Exchange>, before: nat) {
    && |log| >= 1
    && (forall j | 0 <= j < |log| - 1 :: Continues(log[j].response, before + |Received(log[..j])|))
    && !Continues(log[|log| - 1].response, before + |Received(log[..|log| - 1])|)
  }

  lemma StopsAfterOne(x: Exchange, before: nat, l: seq<Exchange>)
    requires Continues(x.response, before)
    requires StopsAtEnd(l, before + |DataOf(x.response)|)
    ensures StopsAtEnd([x] + l, before)
  {
    ReceivedAfterOne(x, l);
    var log := [x] + l;
    forall j | 0 <= j < |log| - 1 ensures Continues(log[j].response, before + |Received(log[..j])|) {
      if j > 0 {
        assert log[j] == l[j - 1];
      }
    }
    assert log[|log| - 1] == l[|l| - 1];
  }

  /** Prefixes of a transcript that starts with `x`. */
  lemma ReceivedAfterOne(x: Exchange, l: seq<Exchange>)
    ensures ([x] + l)[..0] == []
    ensures forall j | 0 <= j <= |l| :: Received(([x] + l)[..j + 1]) == DataOf(x.response) + Received(l[..j])
  {
    forall j | 0 <= j <= |l| ensures Received(([x] + l)[..j + 1]) == DataOf(x.response) + Received(l[..j]) {
      assert ([x] + l)[..j + 1][1..] == l[..j];
    }
  }

  /** Pages that never hold more than PAGE_SIZE issues. */
  predicate PagesWithinSize(script: seq<Response>) {
    forall j | 0 <= j < |script| :: script[j].Page? ==> |script[j].issues| <= PAGE_SIZE
  }

  /** The ceiling: when no page holds more than PAGE_SIZE issues, a search that has collected a
      whole number of pages stays within MAX_ISSUES_PER_SEARCH issues. */
  lemma {:induction false} PaginateWithinCeiling(q: Query, script: seq<Response>, page: nat, acc: seq<Issue>)
    requires PagesWithinSize(script)
    requires |acc| % PAGE_SIZE == 0 && |acc| <= MAX_ISSUES_PER_SEARCH
    ensures |Paginate(q, script, page, acc).issues| <= MAX_ISSUES_PER_SEARCH
    decreases |script|
  {
    if |acc| < MAX_ISSUES_PER_SEARCH && script != [] {
      var m := |acc| / PAGE_SIZE;
      assert |acc| == PAGE_SIZE * m;
      assert m <= 19;
      assert PagesWithinSize(script[1..]) by {
        forall j | 0 <= j < |script[1..]| ensures script[1..][j].Page? ==> |script[1..][j].issues| <= PAGE_SIZE {
          assert script[1..][j] == script[j + 1];
        }
      }
      match script[0]
      case Failed =>
      case RateLimited =>
        PaginateWithinCeiling(q, script[1..], page, acc);
      case Page(data, total) =>
        assert |data| <= PAGE_SIZE;
        if |data| > 0 && !IsLastPage(data, total, |acc + data|) {
          assert |acc + data| == PAGE_SIZE * (m + 1);
          PaginateWithinCeiling(q, script[1..], page + 1, acc + data);
        }
    }
  }

  /** One call of the query executor returns at most MAX_ISSUES_PER_SEARCH issues when no page
      holds more than PAGE_SIZE. */
  lemma FetchWithinCeiling(q: Query, script: seq<Response>)
    requires PagesWithinSize(script)
    ensures |Paginate(q, script, 1, []).issues| <= MAX_ISSUES_PER_SEARCH
  {
    PaginateWithinCeiling(q, script, 1, []);
  }

  /** Retry transparency: a rate-limit refusal inserted anywhere in the answers changes nothing
      in the issues a search returns. */
  lemma {:induction false} RetryTransparent(q: Query, script: seq<Response>, i: nat, page: nat, acc: seq<Issue>)
    requires i <= |script|
    ensures Paginate(q, script[..i] + [RateLimited] + script[i..], page, acc).issues
         == Paginate(q, script, page, acc).issues
    decreases |script|
  {
    var s' := script[..i] + [RateLimited] + script[i..];
    if |acc| >= MAX_ISSUES_PER_SEARCH {
    } else if i == 0 {
      assert s'[0] == RateLimited && s'[1..] == script;
    } else {
      assert s'[0] == script[0];
      assert s'[1..] == script[1..][..i - 1] + [RateLimited] + script[1..][i - 1..];
      match script[0]
      case Failed =>
      case RateLimited =>
        RetryTransparent(q, script[1..], i - 1, page, acc);
      case Page(data, total) =>
        if |data| > 0 && !IsLastPage(data, total, |acc + data|) {
          RetryTransparent(q, script[1..], i - 1, page + 1, acc + data);
        }
    }
  }
}
