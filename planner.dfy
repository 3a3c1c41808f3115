/** The coverage planner: the passes of searches that collect one project's issues into a
    single key-deduplicated list. */
module Planner {
  import opened Model
  import opened Search
  import opened Dedup
  import opened Segment

  /** The message of the exception the date conversion throws on an unparseable date. */
  const INVALID_DATE: string := "Invalid time value"

  /** The earliest creation day of a result, `None` when the result is empty or holds a
      creation date that does not parse. */
  function EarliestCreation(issues: seq<Issue>): (r: Option<int>)
    ensures r.Some? <==> |issues| > 0 && forall x | x in issues :: x.creationDate.Some?
    ensures r.Some? ==> exists x | x in issues :: x.creationDate == r
    ensures r.Some? ==> forall x | x in issues :: r.value <= x.creationDate.value
    decreases |issues|
  {
    if |issues| == 0 || issues[0].creationDate.None? then None
    else if |issues| == 1 then issues[0].creationDate
    else
      assert issues == [issues[0]] + issues[1..];
      match EarliestCreation(issues[1..])
      case None => None
      case Some(m) =>
        assert issues[1..][0] in issues;
        Some(Min(issues[0].creationDate.value, m))
  }

  /** The severity of the first pass: its search, and when that search saturates, date
      segmentation from the earliest creation day it returned, merged instead of it. */
  function SeverityStep(project: string, severity: string, now: int, h: Harvest): Result<Harvest> {
    var q := Query(project, SeverityFilter(severity));
    var run := Paginate(q, h.rest, 1, []);
    if |run.issues| >= MAX_ISSUES_PER_SEARCH then
      match EarliestCreation(run.issues)
      case None => Failure(INVALID_DATE)
      case Some(minDate) =>
        var seg := SegmentFrom(project, SeverityFilter(severity), Windows(minDate, now), Harvest([], h.seen, run.rest, []));
        Success(Harvest(h.issues + seg.issues, seg.seen, seg.rest, h.log + run.log + seg.log))
    else
      Success(MergeQuery(q, h))
  }

  /** The severity pass, one severity after the other; an exception ends it. */
  function SeverityPass(project: string, severities: seq<string>, now: int, h: Harvest): Result<Harvest>
    decreases |severities|
  {
    if severities == [] then Success(h)
    else match SeverityStep(project, severities[0], now, h)
      case Failure(e) => Failure(e)
      case Success(h') => SeverityPass(project, severities[1..], now, h')
  }

  /** A pass without escalation: each query merged in turn. */
  function MergeQueries(qs: seq<Query>, h: Harvest): Harvest
    decreases |qs|
  {
    if qs == [] then h else MergeQueries(qs[1..], MergeQuery(qs[0], h))
  }

  function TypeQueries(project: string): seq<Query> {
    seq(|TYPES|, i requires 0 <= i < |TYPES| => Query(project, TypeFilter(TYPES[i])))
  }

  function StatusQueries(project: string): seq<Query> {
    seq(|STATUSES|, i requires 0 <= i < |STATUSES| => Query(project, StatusFilter(STATUSES[i])))
  }

  /** Every severity with every type, severities outermost. */
  function CrossQueries(project: string): seq<Query> {
    seq(|SEVERITIES| * |TYPES|, k requires 0 <= k < |SEVERITIES| * |TYPES| =>
      Query(project, SeverityFilter(SEVERITIES[k / |TYPES|]).(issueType := Some(TYPES[k % |TYPES|]))))
  }

  /** Reference definition of the harvest of one project: severity pass, type pass, status pass,
      and the severity x type pass only when CROSS_PRODUCT_THRESHOLD issues have been collected. */
  function Plan(project: string, now: int, script: seq<Response>): Result<Harvest> {
    match SeverityPass(project, SEVERITIES, now, Harvest([], {}, script, []))
    case Failure(e) => Failure(e)
    case Success(h1) => Success(LaterPasses(project, h1))
  }

  /** The passes after the severity pass, continuing from its harvest `h1`. */
  function LaterPasses(project: string, h1: Harvest): Harvest {
    var h3 := AfterStatusPass(project, h1);
    if |h3.issues| >= CROSS_PRODUCT_THRESHOLD then MergeQueries(CrossQueries(project), h3) else h3
  }

  /** The harvest after the type and status passes, where the severity x type test is made. */
  function AfterStatusPass(project: string, h1: Harvest): Harvest {
    MergeQueries(StatusQueries(project), MergeQueries(TypeQueries(project), h1))
  }

  /** Collects every issue of one project it can reach, working around the search ceiling. */
  method FetchAllProjectIssues(projectKey: string, now: int, script: seq<Response>) returns (outcome: Result<Harvest>)
    ensures outcome == Plan(projectKey, now, script)
  {
    outcome := RunSeverityPass(projectKey, now, Harvest([], {}, script, []));
    if outcome.Failure? {
      return;
    }
    var h := RunLaterPasses(projectKey, outcome.value);
    outcome := Success(h);
  }

  /** The type, status and severity x type passes of `FetchAllProjectIssues`. */
  method RunLaterPasses(projectKey: string, h1: Harvest) returns (h: Harvest)
    ensures h == LaterPasses(projectKey, h1)
  {
    h := RunQueries(projectKey, TYPES, TypeFilter, h1);
    assert MapQueries(projectKey, TYPES, TypeFilter) == TypeQueries(projectKey);
    h := RunQueries(projectKey, STATUSES, StatusFilter, h);
    assert MapQueries(projectKey, STATUSES, StatusFilter) == StatusQueries(projectKey);
    if |h.issues| >= CROSS_PRODUCT_THRESHOLD {
      h := RunCrossPass(projectKey, h);
    }
  }

  /** The severity pass of `FetchAllProjectIssues`. */
  method RunSeverityPass(projectKey: string, now: int, h0: Harvest) returns (outcome: Result<Harvest>)
    ensures outcome == SeverityPass(projectKey, SEVERITIES, now, h0)
  {
    var projectIssues, seenIssues, rest, log := h0.issues, h0.seen, h0.rest, h0.log;
    for s := 0 to |SEVERITIES|
      invariant SeverityPass(projectKey, SEVERITIES[s..], now, Harvest(projectIssues, seenIssues, rest, log)) ==
                SeverityPass(projectKey, SEVERITIES, now, h0)
    {
      var severity := SEVERITIES[s];
      ghost var h := Harvest(projectIssues, seenIssues, rest, log);
      assert SEVERITIES[s..][0] == severity && SEVERITIES[s..][1..] == SEVERITIES[s + 1..];
      var issues, r, l := FetchIssuesWithFilter(Query(projectKey, SeverityFilter(severity)), rest);
      rest, log := r, log + l;
      if |issues| >= MAX_ISSUES_PER_SEARCH {
        var minDate := EarliestCreation(issues);
        if minDate.None? {
          outcome := Failure(INVALID_DATE);
          return;
        }
        var segmented, seen, r', l' :=
          FetchIssuesByDateRange(projectKey, SeverityFilter(severity), seenIssues, minDate.value, now, rest);
        projectIssues := projectIssues + segmented;
        seenIssues, rest, log := seen, r', log + l';
      } else {
        projectIssues, seenIssues := MergeNew(projectIssues, seenIssues, issues);
      }
      assert SeverityStep(projectKey, severity, now, h) == Success(Harvest(projectIssues, seenIssues, rest, log));
    }
    outcome := Success(Harvest(projectIssues, seenIssues, rest, log));
  }

  /** The queries of a pass over the values of one dimension. */
  function MapQueries(project: string, values: seq<string>, filter: string -> Filter): seq<Query> {
    seq(|values|, i requires 0 <= i < |values| => Query(project, filter(values[i])))
  }

  /** The type pass or the status pass of `FetchAllProjectIssues`: one search per value, each
      merged in turn. */
  method RunQueries(projectKey: string, values: seq<string>, filter: string -> Filter, h0: Harvest) returns (h: Harvest)
    ensures h == MergeQueries(MapQueries(projectKey, values, filter), h0)
  {
    var projectIssues, seenIssues, rest, log := h0.issues, h0.seen, h0.rest, h0.log;
    var qs := MapQueries(projectKey, values, filter);
    for t := 0 to |values|
      invariant MergeQueries(qs[t..], Harvest(projectIssues, seenIssues, rest, log)) == MergeQueries(qs, h0)
    {
      assert qs[t..][0] == Query(projectKey, filter(values[t])) && qs[t..][1..] == qs[t + 1..];
      var issues, r, l := FetchIssuesWithFilter(Query(projectKey, filter(values[t])), rest);
      rest, log := r, log + l;
      projectIssues, seenIssues := MergeNew(projectIssues, seenIssues, issues);
    }
    h := Harvest(projectIssues, seenIssues, rest, log);
  }

  /** The severity x type pass of `FetchAllProjectIssues`. */
  method RunCrossPass(projectKey: string, h0: Harvest) returns (h: Harvest)
    ensures h == MergeQueries(CrossQueries(projectKey), h0)
  {
    var projectIssues, seenIssues, rest, log := h0.issues, h0.seen, h0.rest, h0.log;
    ghost var cross := CrossQueries(projectKey);
    ghost var k := 0;
    for s := 0 to |SEVERITIES|
      invariant k == |TYPES| * s
      invariant MergeQueries(cross[k..], Harvest(projectIssues, seenIssues, rest, log)) == MergeQueries(cross, h0)
    {
      for t := 0 to |TYPES|
        invariant k == |TYPES| * s + t
        invariant MergeQueries(cross[k..], Harvest(projectIssues, seenIssues, rest, log)) == MergeQueries(cross, h0)
      {
        var filter := SeverityFilter(SEVERITIES[s]).(issueType := Some(TYPES[t]));
        CrossQueryAt(projectKey, s, t);
        assert cross[k..][0] == Query(projectKey, filter) && cross[k..][1..] == cross[k + 1..];
        var issues, r, l := FetchIssuesWithFilter(Query(projectKey, filter), rest);
        rest, log := r, log + l;
        projectIssues, seenIssues := MergeNew(projectIssues, seenIssues, issues);
        k := k + 1;
      }
    }
    assert cross[k..] == [];
    h := Harvest(projectIssues, seenIssues, rest, log);
  }

  /** Query number `|TYPES| * s + t` of the cross pass pairs severity `s` with type `t`. */
  lemma CrossQueryAt(project: string, s: nat, t: nat)
    requires s < |SEVERITIES| && t < |TYPES|
    ensures |TYPES| * s + t < |CrossQueries(project)|
    ensures CrossQueries(project)[|TYPES| * s + t] ==
            Query(project, SeverityFilter(SEVERITIES[s]).(issueType := Some(TYPES[t])))
  {
    var k := |TYPES| * s + t;
    assert k / |TYPES| == s && k % |TYPES| == t;
  }

  /** One step of the severity pass keeps the per-project invariant and only appends. */
  lemma SeverityStepKeepsValid(base: set<string>, project: string, severity: string, now: int, h: Harvest)
    requires ValidOver(base, h)
    ensures SeverityStep(project, severity, now, h).Success? ==>
              ValidOver(base, SeverityStep(project, severity, now, h).value) &&
              h.issues <= SeverityStep(project, severity, now, h).value.issues
  {
    var q := Query(project, SeverityFilter(severity));
    var run := Paginate(q, h.rest, 1, []);
    if |run.issues| >= MAX_ISSUES_PER_SEARCH {
      match EarliestCreation(run.issues)
      case None =>
      case Some(minDate) =>
        var seg := SegmentFrom(project, SeverityFilter(severity), Windows(minDate, now), Harvest([], h.seen, run.rest, []));
        DateRangeReturnsOnlyNew(project, SeverityFilter(severity), h.seen, minDate, now, run.rest);
        KeysAppend(h.issues, seg.issues);
        DistinctAppend(h.issues, seg.issues);
    } else {
      MergeQueryKeepsValid(base, q, h);
    }
  }

  /** The severity pass keeps the per-project invariant and only appends. */
  lemma {:induction false} SeverityPassKeepsValid(base: set<string>, project: string, severities: seq<string>, now: int, h: Harvest)
    requires ValidOver(base, h)
    ensures SeverityPass(project, severities, now, h).Success? ==>
              ValidOver(base, SeverityPass(project, severities, now, h).value) &&
              h.issues <= SeverityPass(project, severities, now, h).value.issues
    decreases |severities|
  {
    if severities != [] {
      SeverityStepKeepsValid(base, project, severities[0], now, h);
      match SeverityStep(project, severities[0], now, h)
      case Failure(_) =>
      case Success(h') => SeverityPassKeepsValid(base, project, severities[1..], now, h');
    }
  }

  /** A pass without escalation keeps the per-project invariant and only appends. */
  lemma {:induction false} MergeQueriesKeepsValid(base: set<string>, qs: seq<Query>, h: Harvest)
    requires ValidOver(base, h)
    ensures ValidOver(base, MergeQueries(qs, h))
    ensures h.issues <= MergeQueries(qs, h).issues
    decreases |qs|
  {
    if qs != [] {
      MergeQueryKeepsValid(base, qs[0], h);
      MergeQueriesKeepsValid(base, qs[1..], MergeQuery(qs[0], h));
    }
  }

  /** Throughout the harvest of a project the seen set is exactly the set of keys collected, so
      no two collected issues share a key; the issues the severity pass collected stay, in order,
      at the head of the final list. */
  lemma PlanKeepsKeysDistinct(project: string, now: int, script: seq<Response>)
    ensures Plan(project, now, script).Success? ==>
              var h := Plan(project, now, script).value;
              && DistinctKeys(h.issues)
              && h.seen == Keys(h.issues)
              && SeverityPass(project, SEVERITIES, now, Harvest([], {}, script, [])).value.issues <= h.issues
  {
    PassesKeepKeysDistinct(project, SEVERITIES, now, script);
  }

  /** The same for any list of severities. */
  lemma PassesKeepKeysDistinct(project: string, severities: seq<string>, now: int, script: seq<Response>)
    ensures var r := SeverityPass(project, severities, now, Harvest([], {}, script, []));
            r.Success? ==>
              var h := LaterPasses(project, r.value);
              DistinctKeys(h.issues) && h.seen == Keys(h.issues) && r.value.issues <= h.issues
  {
    var h0 := Harvest([], {}, script, []);
    assert ValidOver({}, h0);
    SeverityPassKeepsValid({}, project, severities, now, h0);
    var r := SeverityPass(project, severities, now, h0);
    if r.Success? {
      LaterPassesKeepValid({}, project, r.value);
    }
  }

  /** The passes after the severity pass keep the invariant and only append. */
  lemma LaterPassesKeepValid(base: set<string>, project: string, h1: Harvest)
    requires ValidOver(base, h1)
    ensures ValidOver(base, LaterPasses(project, h1)) && h1.issues <= LaterPasses(project, h1).issues
  {
    var h2 := MergeQueries(TypeQueries(project), h1);
    var h3 := MergeQueries(StatusQueries(project), h2);
    MergeQueriesKeepsValid(base, TypeQueries(project), h1);
    MergeQueriesKeepsValid(base, StatusQueries(project), h2);
    MergeQueriesKeepsValid(base, CrossQueries(project), h3);
  }

  /** A filter of the severity x type pass: both a severity and a type. */
  predicate CrossFilter(f: Filter) {
    f.severity.Some? && f.issueType.Some?
  }

  /** No request of `log` belongs to the severity x type pass. */
  ghost predicate NoCross(log: seq<Exchange>) {
    forall j | 0 <= j < |log| :: !CrossFilter(log[j].request.query.filter)
  }

  lemma MergeQueryNoCross(q: Query, h: Harvest)
    requires NoCross(h.log) && !CrossFilter(q.filter)
    ensures NoCross(MergeQuery(q, h).log)
    ensures MergeQuery(q, h).log[..|h.log|] == h.log
  {
    var run := Paginate(q, h.rest, 1, []);
    PaginateTranscript(q, h.rest, 1, []);
    var log := h.log + run.log;
    forall j | |h.log| <= j < |log| ensures log[j].request.query == q {
      assert log[j] == run.log[j - |h.log|];
    }
  }

  lemma {:induction false} MergeQueriesNoCross(qs: seq<Query>, h: Harvest)
    requires NoCross(h.log) && forall i | 0 <= i < |qs| :: !CrossFilter(qs[i].filter)
    ensures NoCross(MergeQueries(qs, h).log)
    decreases |qs|
  {
    if qs != [] {
      MergeQueryNoCross(qs[0], h);
      MergeQueriesNoCross(qs[1..], MergeQuery(qs[0], h));
    }
  }

  lemma {:induction false} SegmentNoCross(project: string, base: Filter, starts: seq<int>, h: Harvest)
    requires NoCross(h.log) && base.issueType.None?
    ensures NoCross(SegmentFrom(project, base, starts, h).log)
    decreases |starts|
  {
    if starts != [] {
      MergeQueryNoCross(WindowQuery(project, base, starts[0]), h);
      SegmentNoCross(project, base, starts[1..], MergeQuery(WindowQuery(project, base, starts[0]), h));
    }
  }

  lemma {:induction false} SeverityPassNoCross(project: string, severities: seq<string>, now: int, h: Harvest)
    requires NoCross(h.log)
    ensures SeverityPass(project, severities, now, h).Success? ==>
              NoCross(SeverityPass(project, severities, now, h).value.log)
    decreases |severities|
  {
    if severities != [] {
      var q := Query(project, SeverityFilter(severities[0]));
      var run := Paginate(q, h.rest, 1, []);
      MergeQueryNoCross(q, h);
      var step := SeverityStep(project, severities[0], now, h);
      if step.Success? {
        if |run.issues| >= MAX_ISSUES_PER_SEARCH {
          var minDate := EarliestCreation(run.issues).value;
          var h' := Harvest([], h.seen, run.rest, []);
          SegmentNoCross(project, SeverityFilter(severities[0]), Windows(minDate, now), h');
          var seg := SegmentFrom(project, SeverityFilter(severities[0]), Windows(minDate, now), h');
          assert h.log + run.log == MergeQuery(q, h).log;
          forall j | 0 <= j < |step.value.log| ensures !CrossFilter(step.value.log[j].request.query.filter) {
            if j >= |h.log + run.log| {
              assert step.value.log[j] == seg.log[j - |h.log + run.log|];
            } else {
              assert step.value.log[j] == MergeQuery(q, h).log[j];
            }
          }
        }
        SeverityPassNoCross(project, severities[1..], now, step.value);
      }
    }
  }

  /** The severity x type searches are sent only for a project that had collected
      CROSS_PRODUCT_THRESHOLD issues by the end of the status pass: a harvest that sent any of
      them had at least that many before the first of them, and ends with at least that many. */
  lemma PlanCrossOnlyWhenLarge(project: string, now: int, script: seq<Response>)
    ensures Plan(project, now, script).Success? && !NoCross(Plan(project, now, script).value.log) ==>
              var h1 := SeverityPass(project, SEVERITIES, now, Harvest([], {}, script, [])).value;
              && |AfterStatusPass(project, h1).issues| >= CROSS_PRODUCT_THRESHOLD
              && |Plan(project, now, script).value.issues| >= CROSS_PRODUCT_THRESHOLD
  {
    PassesCrossOnlyWhenLarge(project, SEVERITIES, now, script);
  }

  /** The same for any list of severities. */
  lemma PassesCrossOnlyWhenLarge(project: string, severities: seq<string>, now: int, script: seq<Response>)
    ensures var r := SeverityPass(project, severities, now, Harvest([], {}, script, []));
            r.Success? && !NoCross(LaterPasses(project, r.value).log) ==>
              && |AfterStatusPass(project, r.value).issues| >= CROSS_PRODUCT_THRESHOLD
              && |LaterPasses(project, r.value).issues| >= CROSS_PRODUCT_THRESHOLD
  {
    var h0 := Harvest([], {}, script, []);
    SeverityPassNoCross(project, severities, now, h0);
    var r := SeverityPass(project, severities, now, h0);
    if r.Success? {
      var h1 := r.value;
      var h2 := MergeQueries(TypeQueries(project), h1);
      var h3 := MergeQueries(StatusQueries(project), h2);
      MergeQueriesNoCross(TypeQueries(project), h1);
      MergeQueriesNoCross(StatusQueries(project), h2);
      if |h3.issues| >= CROSS_PRODUCT_THRESHOLD {
        MergeQueriesGrows(CrossQueries(project), h3);
      }
    }
  }

  lemma {:induction false} MergeQueriesGrows(qs: seq<Query>, h: Harvest)
    ensures h.issues <= MergeQueries(qs, h).issues
    decreases |qs|
  {
    if qs != [] {
      MergeQueriesGrows(qs[1..], MergeQuery(qs[0], h));
    }
  }
}
