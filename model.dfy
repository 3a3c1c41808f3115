/** Vocabulary of the issue-harvesting engine: issues, search filters, the remote search API's
    answers, and the per-project accumulation state. */
module Model {

  datatype Option<T> = None | Some(value: T)

  /** An outcome that either carries a value or the message of an exception that escaped. */
  datatype Result<T> = Success(value: T) | Failure(error: string)

  /** Results per page requested from the search API. */
  const PAGE_SIZE: nat := 500
  /** The most issues the search API serves for one filter, however many pages are asked for. */
  const MAX_ISSUES_PER_SEARCH: nat := 10000
  /** Width, in days, of one creation-date window of the date segmentation. */
  const STEP_DAYS: nat := 30
  /** Project size from which the severity x type cross-product pass runs. */
  const CROSS_PRODUCT_THRESHOLD: nat := 40000

  const SEVERITIES: seq<string> := ["BLOCKER", "CRITICAL", "MAJOR", "MINOR", "INFO"]
  const TYPES: seq<string> := ["CODE_SMELL", "BUG", "VULNERABILITY", "SECURITY_HOTSPOT"]
  const STATUSES: seq<string> := ["OPEN", "CONFIRMED", "REOPENED", "RESOLVED", "CLOSED"]

  /** One finding as the search API returns it. Fields other than `key` may be absent;
      `creationDate` is a day number, `None` when the service's date text does not parse. */
  datatype Issue = Issue(
    key: string,
    severity: Option<string>,
    issueType: Option<string>,
    status: Option<string>,
    component: Option<string>,
    project: Option<string>,
    message: Option<string>,
    creationDate: Option<int>)

  /** The filter-specific query parameters of one search. */
  datatype Filter = Filter(
    severity: Option<string>,
    issueType: Option<string>,
    status: Option<string>,
    createdAfter: Option<int>,
    createdBefore: Option<int>)

  const NO_FILTER: Filter := Filter(None, None, None, None, None)

  function SeverityFilter(severity: string): Filter { NO_FILTER.(severity := Some(severity)) }
  function TypeFilter(issueType: string): Filter { NO_FILTER.(issueType := Some(issueType)) }
  function StatusFilter(status: string): Filter { NO_FILTER.(status := Some(status)) }

  /** One search: the project (`componentKeys`) and its filter. */
  datatype Query = Query(project: string, filter: Filter)

  /** One page request of a search. */
  datatype Request = Request(query: Query, page: nat)

  /** What the search API answers to one request: a page of issues with the reported total,
      a rate-limit refusal (HTTP 429), or any other failure. */
  datatype Response = Page(issues: seq<Issue>, total: int) | RateLimited | Failed

  /** A request together with the answer it got. */
  datatype Exchange = Exchange(request: Request, response: Response)

  /** The remote side of a whole harvest: the answers the search API gives, in the order the
      requests are sent. Once the script has run out, every request fails. */
  function AnswerAt(script: seq<Response>, j: nat): Response {
    if j < |script| then script[j] else Failed
  }

  /** The accumulation state of a harvest: the issues collected so far, the keys seen so far,
      the answers still to come, and every exchange made so far. */
  datatype Harvest = Harvest(
    issues: seq<Issue>,
    seen: set<string>,
    rest: seq<Response>,
    log: seq<Exchange>)

  function Keys(s: seq<Issue>): set<string> {
    set x | x in s :: x.key
  }

  predicate DistinctKeys(s: seq<Issue>) {
    forall i, j | 0 <= i < j < |s| :: s[i].key != s[j].key
  }

  function Min(a: int, b: int): int { if a <= b then a else b }

  lemma KeysAppend(a: seq<Issue>, b: seq<Issue>)
    ensures Keys(a + b) == Keys(a) + Keys(b)
  {
    assert forall x | x in a + b :: x in a || x in b;
  }

  /** Concatenating two key-distinct lists with disjoint key sets keeps keys distinct. */
  lemma DistinctAppend(a: seq<Issue>, b: seq<Issue>)
    requires DistinctKeys(a) && DistinctKeys(b) && Keys(a) !! Keys(b)
    ensures DistinctKeys(a + b)
  {
    forall i, j | 0 <= i < j < |a + b| ensures (a + b)[i].key != (a + b)[j].key {
      if j < |a| {
        assert (a + b)[i] == a[i] && (a + b)[j] == a[j];
      } else if i >= |a| {
        assert (a + b)[i] == b[i - |a|] && (a + b)[j] == b[j - |a|];
      } else {
        assert (a + b)[i] == a[i] && (a + b)[j] == b[j - |a|];
        assert a[i].key in Keys(a) && b[j - |a|].key in Keys(b);
      }
    }
  }
}
