/** The issue-harvest request handler: input check, harvest of every selected project in turn,
    summary, and the partial results returned when a harvest throws. */
module Handler {
  import opened Model
  import opened Planner

  /** The error of a rejected request. */
  const INVALID_PARAMS: string := "Parâmetros inválidos"

  /** The request body: a token (`None` when missing or falsy) and the selected project keys
      (`None` when not an array). */
  predicate ValidParams(token: Option<string>, selectedKeys: Option<seq<string>>) {
    token.Some? && token.value != "" && selectedKeys.Some?
  }

  datatype ProjectCount = ProjectCount(key: string, issuesCount: nat)
  datatype Summary = Summary(totalIssues: nat, projectsProcessed: nat, projects: seq<ProjectCount>)
  datatype Partial = Partial(issues: seq<Issue>, count: nat)

  /** The response: 400 with an error, 200 with the issues and their summary, or 500 with the
      message of the exception and what had been collected. */
  datatype Reply =
    | BadRequest(error: string)
    | Harvested(issues: seq<Issue>, summary: Summary)
    | ServerError(error: string, partialResults: Option<Partial>)

  function StatusCode(r: Reply): (code: int)
    ensures code == 200 <==> r.Harvested?
  {
    match r
    case BadRequest(_) => 400
    case Harvested(_, _) => 200
    case ServerError(_, _) => 500
  }

  /** Whether the issue's component starts with `key` (an issue without a component never does). */
  predicate StartsWith(x: Issue, key: string) {
    x.component.Some? && key <= x.component.value
  }

  /** How many issues have a component starting with `key`. */
  function CountPrefixed(issues: seq<Issue>, key: string): (r: nat)
    ensures r <= |issues|
    decreases |issues|
  {
    if issues == [] then 0
    else CountPrefixed(issues[..|issues| - 1], key) + (if StartsWith(issues[|issues| - 1], key) then 1 else 0)
  }

  /** The positions of the issues whose component starts with `key`. */
  function PrefixedPositions(issues: seq<Issue>, key: string): set<nat> {
    set j: nat | j < |issues| && StartsWith(issues[j], key)
  }

  /** `CountPrefixed` counts exactly the positions whose issue starts with the key. */
  lemma {:induction false} CountPrefixedIsCardinality(issues: seq<Issue>, key: string)
    ensures CountPrefixed(issues, key) == |PrefixedPositions(issues, key)|
    decreases |issues|
  {
    if issues != [] {
      var n := |issues| - 1;
      CountPrefixedIsCardinality(issues[..n], key);
      PrefixedSnoc(issues, key);
    }
  }

  lemma PrefixedSnoc(issues: seq<Issue>, key: string)
    requires issues != []
    ensures var n := |issues| - 1;
            var before := PrefixedPositions(issues[..n], key);
            && n !in before
            && PrefixedPositions(issues, key) == before + if StartsWith(issues[n], key) then {n} else {}
  {
    var n := |issues| - 1;
    var init := issues[..n];
    var before := PrefixedPositions(init, key);
    var last := if StartsWith(issues[n], key) then {n} else {};
    forall j: nat ensures j in PrefixedPositions(issues, key) <==> j in before + last {
      if j < n {
        assert init[j] == issues[j];
      }
    }
  }

  /** The summary of a successful harvest: every selected key with the number of issues whose
      component starts with it. */
  function Summarize(keys: seq<string>, issues: seq<Issue>): (s: Summary)
    ensures s.totalIssues == |issues| && s.projectsProcessed == |keys| && |s.projects| == |keys|
    ensures forall i | 0 <= i < |keys| :: s.projects[i].key == keys[i] && s.projects[i].issuesCount <= |issues|
  {
    Summary(|issues|, |keys|, seq(|keys|, i requires 0 <= i < |keys| => ProjectCount(keys[i], CountPrefixed(issues, keys[i]))))
  }

  /** What the project loop leaves: the issues collected, the harvest of each project completed,
      the message of the exception that stopped it (if any), and the answers still to come. */
  datatype Gathered = Gathered(issues: seq<Issue>, blocks: seq<Harvest>, failure: Option<string>, rest: seq<Response>)

  /** The issues of the harvests `blocks`, in order. */
  function Flatten(blocks: seq<Harvest>): seq<Issue>
    decreases |blocks|
  {
    if blocks == [] then [] else Flatten(blocks[..|blocks| - 1]) + blocks[|blocks| - 1].issues
  }

  /** Reference definition of the project loop, from project number `|blocks|` on: each
      project harvested in turn and its issues appended; an exception ends the loop. */
  function Gather(keys: seq<string>, now: int, issues: seq<Issue>, blocks: seq<Harvest>, rest: seq<Response>): Gathered
    decreases |keys| - |blocks|
  {
    if |blocks| >= |keys| then Gathered(issues, blocks, None, rest)
    else match Plan(keys[|blocks|], now, rest)
      case Failure(e) => Gathered(issues, blocks, Some(e), rest)
      case Success(h) => Gather(keys, now, issues + h.issues, blocks + [h], h.rest)
  }

  /** The answers project number `i` starts from: the script for the first project, what the
      previous project left for the others. */
  function StartOf(script: seq<Response>, blocks: seq<Harvest>, i: nat): seq<Response>
    requires i <= |blocks|
  {
    if i == 0 then script else blocks[i - 1].rest
  }

  /** Each of `blocks` is the harvest of the project of the same number, started where the
      previous one stopped. */
  ghost predicate Chained(keys: seq<string>, now: int, script: seq<Response>, blocks: seq<Harvest>) {
    |blocks| <= |keys| &&
    forall i | 0 <= i < |blocks| :: Plan(keys[i], now, StartOf(script, blocks, i)) == Success(blocks[i])
  }

  /** Reference definition of the handler. */
  function Respond(token: Option<string>, selectedKeys: Option<seq<string>>, now: int, script: seq<Response>): Reply {
    if !ValidParams(token, selectedKeys) then BadRequest(INVALID_PARAMS)
    else
      var g := Gather(selectedKeys.value, now, [], [], script);
      match g.failure
      case Some(e) => ServerError(e, if |g.issues| > 0 then Some(Partial(g.issues, |g.issues|)) else None)
      case None => Harvested(g.issues, Summarize(selectedKeys.value, g.issues))
  }

  /** Handles one harvest request. */
  method Post(token: Option<string>, selectedKeys: Option<seq<string>>, now: int, script: seq<Response>)
    returns (reply: Reply)
    ensures reply == Respond(token, selectedKeys, now, script)
  {
    if !ValidParams(token, selectedKeys) {
      return BadRequest(INVALID_PARAMS);
    }
    var keys := selectedKeys.value;
    var allIssues: seq<Issue> := [];
    var rest := script;
    ghost var blocks: seq<Harvest> := [];
    for i := 0 to |keys|
      invariant |blocks| == i
      invariant Gather(keys, now, allIssues, blocks, rest) == Gather(keys, now, [], [], script)
    {
      var outcome := FetchAllProjectIssues(keys[i], now, rest);
      if outcome.Failure? {
        reply := ServerError(outcome.error,
                             if |allIssues| > 0 then Some(Partial(allIssues, |allIssues|)) else None);
        return;
      }
      allIssues := allIssues + outcome.value.issues;
      blocks := blocks + [outcome.value];
      rest := outcome.value.rest;
    }
    reply := Harvested(allIssues, Summarize(keys, allIssues));
  }

  /** The project loop appends each completed project's issues in request order, chains the
      remote answers from one project to the next, and stops early exactly on an exception. */
  lemma GatherChains(keys: seq<string>, now: int, script: seq<Response>,
                     issues: seq<Issue>, blocks: seq<Harvest>, rest: seq<Response>)
    requires Chained(keys, now, script, blocks)
    requires issues == Flatten(blocks) && rest == StartOf(script, blocks, |blocks|)
    ensures var g := Gather(keys, now, issues, blocks, rest);
            && g.issues == Flatten(g.blocks)
            && blocks <= g.blocks
            && Chained(keys, now, script, g.blocks)
            && (g.failure.None? <==> |g.blocks| == |keys|)
            && (g.failure.Some? ==>
                  Plan(keys[|g.blocks|], now, StartOf(script, g.blocks, |g.blocks|)) == Failure(g.failure.value))
  {
    GatherFlattens(keys, now, issues, blocks, rest);
    GatherChained(keys, now, script, issues, blocks, rest);
  }

  /** The collected list is the concatenation of the completed harvests, which only grow. */
  lemma {:induction false} GatherFlattens(keys: seq<string>, now: int, issues: seq<Issue>, blocks: seq<Harvest>, rest: seq<Response>)
    requires issues == Flatten(blocks)
    ensures var g := Gather(keys, now, issues, blocks, rest);
            g.issues == Flatten(g.blocks) && blocks <= g.blocks
    decreases |keys| - |blocks|
  {
    if |blocks| < |keys| {
      match Plan(keys[|blocks|], now, rest)
      case Failure(e) =>
      case Success(h) =>
        var blocks' := blocks + [h];
        assert blocks'[..|blocks'| - 1] == blocks;
        GatherFlattens(keys, now, issues + h.issues, blocks', h.rest);
    }
  }

  /** Each completed harvest starts where the previous one stopped, and the loop stops early
      exactly on the project whose harvest fails. */
  lemma {:induction false} GatherChained(keys: seq<string>, now: int, script: seq<Response>,
                                         issues: seq<Issue>, blocks: seq<Harvest>, rest: seq<Response>)
    requires Chained(keys, now, script, blocks) && rest == StartOf(script, blocks, |blocks|)
    ensures var g := Gather(keys, now, issues, blocks, rest);
            && Chained(keys, now, script, g.blocks)
            && (g.failure.None? <==> |g.blocks| == |keys|)
            && (g.failure.Some? ==>
                  Plan(keys[|g.blocks|], now, StartOf(script, g.blocks, |g.blocks|)) == Failure(g.failure.value))
    decreases |keys| - |blocks|
  {
    if |blocks| < |keys| {
      match Plan(keys[|blocks|], now, rest)
      case Failure(e) =>
      case Success(h) =>
        var blocks' := blocks + [h];
        assert StartOf(script, blocks', |blocks'|) == h.rest;
        ChainedExtend(keys, now, script, blocks, h);
        GatherChained(keys, now, script, issues + h.issues, blocks', h.rest);
    }
  }

  lemma ChainedExtend(keys: seq<string>, now: int, script: seq<Response>, blocks: seq<Harvest>, h: Harvest)
    requires Chained(keys, now, script, blocks) && |blocks| < |keys|
    requires Plan(keys[|blocks|], now, StartOf(script, blocks, |blocks|)) == Success(h)
    ensures Chained(keys, now, script, blocks + [h])
  {
    var blocks' := blocks + [h];
    forall i | 0 <= i <= |blocks| ensures StartOf(script, blocks', i) == StartOf(script, blocks, i) {
      if i > 0 {
        assert blocks'[i - 1] == blocks[i - 1];
      }
    }
    forall i | 0 <= i < |blocks'| ensures Plan(keys[i], now, StartOf(script, blocks', i)) == Success(blocks'[i]) {
      if i < |blocks| {
        assert blocks'[i] == blocks[i];
        assert Plan(keys[i], now, StartOf(script, blocks, i)) == Success(blocks[i]);
      } else {
        assert blocks'[i] == h;
      }
    }
  }

  /** A rejected request answers 400 whatever the remote side would have answered: nothing is
      fetched before the input check. */
  lemma RejectsBeforeFetching(token: Option<string>, selectedKeys: Option<seq<string>>, now: int, s1: seq<Response>, s2: seq<Response>)
    requires !ValidParams(token, selectedKeys)
    ensures Respond(token, selectedKeys, now, s1) == Respond(token, selectedKeys, now, s2) == BadRequest(INVALID_PARAMS)
  {
  }

  /** A successful reply holds the issues of every selected project, in request order and each
      project free of duplicate keys (no deduplication across projects), with a summary whose
      totals are the issue and key counts and whose per-key count is the number of issues whose
      component starts with that key. */
  lemma HarvestedReply(token: Option<string>, keys: seq<string>, now: int, script: seq<Response>)
    requires ValidParams(token, Some(keys))
    ensures var g := Gather(keys, now, [], [], script);
            var r := Respond(token, Some(keys), now, script);
            r.Harvested? ==>
              && |g.blocks| == |keys|
              && r.issues == Flatten(g.blocks)
              && (forall i | 0 <= i < |keys| :: DistinctKeys(g.blocks[i].issues))
              && r.summary.totalIssues == |r.issues|
              && r.summary.projectsProcessed == |keys|
              && (forall i | 0 <= i < |keys| ::
                    r.summary.projects[i] == ProjectCount(keys[i], |PrefixedPositions(r.issues, keys[i])|))
  {
    var g := Gather(keys, now, [], [], script);
    GatherChains(keys, now, script, [], [], script);
    BlocksDistinct(keys, now, script);
    forall i | 0 <= i < |keys| {
      CountPrefixedIsCardinality(g.issues, keys[i]);
    }
  }

  /** Every project harvested by the loop has no two issues with the same key. */
  lemma BlocksDistinct(keys: seq<string>, now: int, script: seq<Response>)
    ensures var g := Gather(keys, now, [], [], script);
            forall i | 0 <= i < |g.blocks| :: DistinctKeys(g.blocks[i].issues) && g.blocks[i].seen == Keys(g.blocks[i].issues)
  {
    var g := Gather(keys, now, [], [], script);
    GatherChains(keys, now, script, [], [], script);
    forall i | 0 <= i < |g.blocks|
      ensures DistinctKeys(g.blocks[i].issues) && g.blocks[i].seen == Keys(g.blocks[i].issues)
    {
      PlanKeepsKeysDistinct(keys[i], now, StartOf(script, g.blocks, i));
    }
  }

  /** When a project's harvest throws, the reply is a 500 carrying its message; the partial
      results hold exactly the issues of the projects completed before it (fewer than were
      selected), and are absent exactly when those are none. */
  lemma ErrorKeepsCompletedProjects(token: Option<string>, keys: seq<string>, now: int, script: seq<Response>)
    requires ValidParams(token, Some(keys))
    ensures var g := Gather(keys, now, [], [], script);
            var r := Respond(token, Some(keys), now, script);
            r.ServerError? ==>
              && |g.blocks| < |keys|
              && Plan(keys[|g.blocks|], now, StartOf(script, g.blocks, |g.blocks|)) == Failure(r.error)
              && (r.partialResults.None? <==> Flatten(g.blocks) == [])
              && (r.partialResults.Some? ==>
                    r.partialResults.value == Partial(Flatten(g.blocks), |Flatten(g.blocks)|))
  {
    GatherChains(keys, now, script, [], [], script);
  }

  /** Two issues of two projects, each counted under its own project key by prefix match. */
  lemma SummaryExample()
    ensures var a := Issue("a", None, None, None, Some("proj-a:src/x"), None, None, None);
            var b := Issue("b", None, None, None, Some("proj-b:src/y"), None, None, None);
            Summarize(["proj-a", "proj-b"], [a, b]) ==
              Summary(2, 2, [ProjectCount("proj-a", 1), ProjectCount("proj-b", 1)])
  {
    var a := Issue("a", None, None, None, Some("proj-a:src/x"), None, None, None);
    var b := Issue("b", None, None, None, Some("proj-b:src/y"), None, None, None);
    assert [a, b][..1] == [a];
    assert "proj-b"[5] != "proj-a:src/x"[5] && "proj-a"[5] != "proj-b:src/y"[5];
  }
}
