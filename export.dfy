/** Report shaping on the client: the guard before an export starts, the statistics, grouping
    by project, sheet names, the PDF table layout and its row colours. */
module Export {
  import opened Model

  // ---------------------------------------------------------------------------------------
  // The guard before an export starts

  datatype Toast = Toast(title: string, text: string, color: string, iconType: string)

  const SELECT_PROJECT: Toast := Toast("Selecione pelo menos um projeto",
                                       "Você precisa escolher ao menos um projeto para exportar",
                                       "warning", "alert")

  /** The screen state an export drives: its step, the loading flag, the progress bar and the
      toasts shown so far. */
  class ExportScreen {
    var step: string
    var loading: bool
    var progress: int
    var toasts: seq<Toast>

    constructor (step: string)
      ensures this.step == step && !loading && progress == 0 && toasts == []
    {
      this.step := step;
      loading := false;
      progress := 0;
      toasts := [];
    }

    /** Starts an export of `selectedKeys`: with no key selected it only shows a warning and
        reports that nothing more happens (no request is sent); otherwise it moves to the
        exporting step with loading on and progress at zero. */
    method Start(selectedKeys: seq<string>) returns (proceed: bool)
      modifies this
      ensures proceed <==> |selectedKeys| > 0
      ensures !proceed ==> toasts == old(toasts) + [SELECT_PROJECT] &&
                           step == old(step) && loading == old(loading) && progress == old(progress)
      ensures proceed ==> toasts == old(toasts) && step == "exporting" && loading && progress == 0
    {
      if |selectedKeys| == 0 {
        toasts := toasts + [SELECT_PROJECT];
        return false;
      }
      step := "exporting";
      loading := true;
      progress := 0;
      proceed := true;
    }
  }

  // ---------------------------------------------------------------------------------------
  // Statistics: the severity breakdown

  /** One property of an object built by a counting reduce: a label and its count. */
  datatype Entry = Entry(key: string, count: nat)

  function LabelsOf(r: seq<Entry>): set<string> {
    set e | e in r :: e.key
  }

  predicate DistinctLabels(r: seq<Entry>) {
    forall i, j | 0 <= i < j < |r| :: r[i].key != r[j].key
  }

  /** The total count carried by the entries labelled `m`. */
  function CountOf(r: seq<Entry>, m: string): nat
    decreases |r|
  {
    if r == [] then 0 else (if r[0].key == m then r[0].count else 0) + CountOf(r[1..], m)
  }

  function Sum(r: seq<Entry>): nat
    decreases |r|
  {
    if r == [] then 0 else r[0].count + Sum(r[1..])
  }

  /** Counting one more `l`: its entry's count goes up by one, or, when it has none yet, a new
      entry with count one is added at the end (the insertion order of an object's keys). */
  function Bump(acc: seq<Entry>, l: string): seq<Entry>
    decreases |acc|
  {
    if acc == [] then [Entry(l, 1)]
    else if acc[0].key == l then [acc[0].(count := acc[0].count + 1)] + acc[1..]
    else [acc[0]] + Bump(acc[1..], l)
  }

  lemma EntryCons(e: Entry, t: seq<Entry>, m: string)
    ensures LabelsOf([e] + t) == {e.key} + LabelsOf(t)
    ensures CountOf([e] + t, m) == (if e.key == m then e.count else 0) + CountOf(t, m)
    ensures Sum([e] + t) == e.count + Sum(t)
    ensures DistinctLabels(t) && e.key !in LabelsOf(t) ==> DistinctLabels([e] + t)
  {
    assert ([e] + t)[1..] == t;
    if DistinctLabels(t) && e.key !in LabelsOf(t) {
      forall i, j | 0 <= i < j < |[e] + t| ensures ([e] + t)[i].key != ([e] + t)[j].key {
        assert ([e] + t)[j] == t[j - 1];
        if i == 0 {
          assert t[j - 1] in t;
        }
      }
    }
  }

  lemma DistinctTail(e: Entry, t: seq<Entry>)
    requires DistinctLabels([e] + t)
    ensures DistinctLabels(t) && e.key !in LabelsOf(t)
  {
    var c := [e] + t;
    forall i, j | 0 <= i < j < |t| ensures t[i].key != t[j].key {
      assert t[i] == c[i + 1] && t[j] == c[j + 1];
    }
    forall i | 0 <= i < |t| ensures t[i].key != e.key {
      assert c[0] == e && t[i] == c[i + 1];
    }
    forall f | f in t ensures f.key != e.key {
      var i :| 0 <= i < |t| && t[i] == f;
    }
  }

  /** What counting one more `l` does to the labels, their counts and their total. */
  lemma BumpSpec(acc: seq<Entry>, l: string, m: string)
    ensures LabelsOf(Bump(acc, l)) == LabelsOf(acc) + {l}
    ensures DistinctLabels(acc) ==> DistinctLabels(Bump(acc, l))
    ensures CountOf(Bump(acc, l), m) == CountOf(acc, m) + (if m == l then 1 else 0)
    ensures Sum(Bump(acc, l)) == Sum(acc) + 1
  {
    BumpLabels(acc, l);
    if DistinctLabels(acc) {
      BumpDistinct(acc, l);
    }
    BumpCount(acc, l, m);
  }

  lemma {:induction false} BumpLabels(acc: seq<Entry>, l: string)
    ensures LabelsOf(Bump(acc, l)) == LabelsOf(acc) + {l}
    ensures Sum(Bump(acc, l)) == Sum(acc) + 1
    decreases |acc|
  {
    if acc == [] {
      EntryCons(Entry(l, 1), [], l);
    } else {
      var e, t := acc[0], acc[1..];
      assert acc == [e] + t;
      EntryCons(e, t, l);
      if e.key == l {
        EntryCons(e.(count := e.count + 1), t, l);
      } else {
        BumpLabels(t, l);
        EntryCons(e, Bump(t, l), l);
      }
    }
  }

  lemma {:induction false} BumpDistinct(acc: seq<Entry>, l: string)
    requires DistinctLabels(acc)
    ensures DistinctLabels(Bump(acc, l))
    decreases |acc|
  {
    if acc != [] {
      var e, t := acc[0], acc[1..];
      assert acc == [e] + t;
      DistinctTail(e, t);
      if e.key == l {
        EntryCons(e.(count := e.count + 1), t, l);
      } else {
        BumpDistinct(t, l);
        BumpLabels(t, l);
        EntryCons(e, Bump(t, l), l);
      }
    }
  }

  lemma {:induction false} BumpCount(acc: seq<Entry>, l: string, m: string)
    ensures CountOf(Bump(acc, l), m) == CountOf(acc, m) + (if m == l then 1 else 0)
    decreases |acc|
  {
    if acc == [] {
      EntryCons(Entry(l, 1), [], m);
    } else {
      var e, t := acc[0], acc[1..];
      assert acc == [e] + t;
      EntryCons(e, t, m);
      if e.key == l {
        EntryCons(e.(count := e.count + 1), t, m);
      } else {
        BumpCount(t, l, m);
        EntryCons(e, Bump(t, l), m);
      }
    }
  }

  /** A counting reduce over `labels`, in order: one entry per distinct label, in order of first
      occurrence, each with the number of occurrences of its label. */
  function Tally(labels: seq<string>): (r: seq<Entry>)
    ensures DistinctLabels(r)
    ensures LabelsOf(r) == set l | l in labels
    ensures forall m :: CountOf(r, m) == multiset(labels)[m]
    ensures Sum(r) == |labels|
    decreases |labels|
  {
    if labels == [] then []
    else
      var n := |labels| - 1;
      var prev := Tally(labels[..n]);
      TallyStep(labels, prev);
      Bump(prev, labels[n])
  }

  lemma TallyStep(labels: seq<string>, prev: seq<Entry>)
    requires |labels| > 0
    requires var n := |labels| - 1;
             && DistinctLabels(prev)
             && LabelsOf(prev) == (set l | l in labels[..n])
             && (forall m :: CountOf(prev, m) == multiset(labels[..n])[m])
             && Sum(prev) == n
    ensures var r := Bump(prev, labels[|labels| - 1]);
            && DistinctLabels(r)
            && LabelsOf(r) == (set l | l in labels)
            && (forall m :: CountOf(r, m) == multiset(labels)[m])
            && Sum(r) == |labels|
  {
    var n := |labels| - 1;
    assert labels == labels[..n] + [labels[n]];
    forall m ensures CountOf(Bump(prev, labels[n]), m) == multiset(labels)[m] {
      BumpSpec(prev, labels[n], m);
    }
    BumpSpec(prev, labels[n], labels[n]);
    assert (set l | l in labels) == (set l | l in labels[..n]) + {labels[n]};
  }

  /** Among entries with distinct labels, the count of a label is that of its own entry. */
  lemma {:induction false} CountOfEntry(r: seq<Entry>, i: nat)
    requires DistinctLabels(r) && i < |r|
    ensures CountOf(r, r[i].key) == r[i].count
    decreases |r|
  {
    if i == 0 {
      CountOfAbsent(r[1..], r[0].key);
    } else {
      CountOfEntry(r[1..], i - 1);
    }
  }

  lemma {:induction false} CountOfAbsent(r: seq<Entry>, m: string)
    requires forall i | 0 <= i < |r| :: r[i].key != m
    ensures CountOf(r, m) == 0
    decreases |r|
  {
    if r != [] {
      CountOfAbsent(r[1..], m);
    }
  }

  /** The label an issue is counted under in the severity breakdown. */
  function SeverityLabel(x: Issue): string {
    match x.severity
    case Some(s) => s
    case None => "UNKNOWN"
  }

  function SeverityLabels(issues: seq<Issue>): seq<string> {
    seq(|issues|, i requires 0 <= i < |issues| => SeverityLabel(issues[i]))
  }

  function SeverityBreakdown(issues: seq<Issue>): seq<Entry> {
    Tally(SeverityLabels(issues))
  }

  /** The breakdown maps each severity (missing ones counted as "UNKNOWN") to its number of
      issues, has an entry for every severity that occurs and none for any other, and its
      counts sum to the number of issues. */
  lemma BreakdownCounts(issues: seq<Issue>)
    ensures var r := SeverityBreakdown(issues);
            && DistinctLabels(r)
            && (forall i | 0 <= i < |r| :: r[i].count == |IssuesLabelled(issues, r[i].key)| > 0)
            && (forall x | x in issues :: SeverityLabel(x) in LabelsOf(r))
            && (forall i | 0 <= i < |r| :: exists x | x in issues :: SeverityLabel(x) == r[i].key)
            && Sum(r) == |issues|
  {
    var labels := SeverityLabels(issues);
    var r := SeverityBreakdown(issues);
    forall i | 0 <= i < |r| ensures r[i].count == |IssuesLabelled(issues, r[i].key)| > 0 {
      CountOfEntry(r, i);
      MultisetIsPositions(issues, r[i].key);
      assert r[i] in r;
      assert r[i].key in LabelsOf(r);
      assert r[i].key in labels;
    }
    forall x | x in issues ensures SeverityLabel(x) in LabelsOf(r) {
      var k :| 0 <= k < |issues| && issues[k] == x;
      assert labels[k] in labels;
    }
    forall i | 0 <= i < |r| ensures exists x | x in issues :: SeverityLabel(x) == r[i].key {
      assert r[i] in r;
      var k :| 0 <= k < |labels| && labels[k] == r[i].key;
      assert issues[k] in issues;
    }
  }

  /** The positions of the issues counted under label `m`. */
  function IssuesLabelled(issues: seq<Issue>, m: string): set<nat> {
    set k: nat | k < |issues| && SeverityLabel(issues[k]) == m
  }

  lemma {:induction false} MultisetIsPositions(issues: seq<Issue>, m: string)
    ensures multiset(SeverityLabels(issues))[m] == |IssuesLabelled(issues, m)|
    decreases |issues|
  {
    if issues != [] {
      var n := |issues| - 1;
      MultisetIsPositions(issues[..n], m);
      assert SeverityLabels(issues) == SeverityLabels(issues[..n]) + [SeverityLabel(issues[n])];
      LabelledSnoc(issues, m);
    }
  }

  lemma LabelledSnoc(issues: seq<Issue>, m: string)
    requires issues != []
    ensures var n := |issues| - 1;
            var before := IssuesLabelled(issues[..n], m);
            && n !in before
            && IssuesLabelled(issues, m) == before + if SeverityLabel(issues[n]) == m then {n} else {}
  {
    var n := |issues| - 1;
    var init := issues[..n];
    var before := IssuesLabelled(init, m);
    var last := if SeverityLabel(issues[n]) == m then {n} else {};
    forall j: nat ensures j in IssuesLabelled(issues, m) <==> j in before + last {
      if j < n {
        assert init[j] == issues[j];
      }
    }
  }

  datatype ExportStats = ExportStats(totalIssues: nat, projectCount: nat, severityBreakdown: seq<Entry>)

  function Stats(issues: seq<Issue>, selectedKeys: seq<string>): (s: ExportStats)
    ensures s.totalIssues == |issues| == Sum(s.severityBreakdown)
    ensures s.projectCount == |selectedKeys|
  {
    ExportStats(|issues|, |selectedKeys|, SeverityBreakdown(issues))
  }

  // ---------------------------------------------------------------------------------------
  // Grouping by project

  const NO_PROJECT: string := "SemProjeto"

  /** The group an issue lands in. */
  function ProjectLabel(x: Issue): string {
    match x.project
    case Some(p) => p
    case None => NO_PROJECT
  }

  datatype Group = Group(key: string, members: seq<Issue>)

  function GroupKeys(r: seq<Group>): set<string> {
    set g | g in r :: g.key
  }

  predicate DistinctGroups(r: seq<Group>) {
    forall i, j | 0 <= i < j < |r| :: r[i].key != r[j].key
  }

  /** The issues of `issues` that belong to group `m`, in their order: the independent
      definition of a group's contents. */
  function Where(issues: seq<Issue>, m: string): (r: seq<Issue>)
    ensures |r| <= |issues|
    decreases |issues|
  {
    if issues == [] then []
    else
      var n := |issues| - 1;
      Where(issues[..n], m) + (if ProjectLabel(issues[n]) == m then [issues[n]] else [])
  }

  /** The members of the groups keyed `m`, concatenated. */
  function MembersOf(r: seq<Group>, m: string): seq<Issue>
    decreases |r|
  {
    if r == [] then [] else (if r[0].key == m then r[0].members else []) + MembersOf(r[1..], m)
  }

  function Sizes(r: seq<Group>): nat
    decreases |r|
  {
    if r == [] then 0 else |r[0].members| + Sizes(r[1..])
  }

  /** Adding one issue: appended to its group's list, or to a new group added at the end. */
  function AddToGroup(acc: seq<Group>, x: Issue): seq<Group>
    decreases |acc|
  {
    if acc == [] then [Group(ProjectLabel(x), [x])]
    else if acc[0].key == ProjectLabel(x) then [acc[0].(members := acc[0].members + [x])] + acc[1..]
    else [acc[0]] + AddToGroup(acc[1..], x)
  }

  predicate NonEmptyGroups(r: seq<Group>) {
    forall i | 0 <= i < |r| :: |r[i].members| > 0
  }

  /** Key set, size and non-emptiness of a group list with one more group in front. */
  lemma GroupCons(g: Group, t: seq<Group>)
    ensures GroupKeys([g] + t) == {g.key} + GroupKeys(t)
    ensures Sizes([g] + t) == |g.members| + Sizes(t)
    ensures NonEmptyGroups([g] + t) <==> |g.members| > 0 && NonEmptyGroups(t)
  {
    assert ([g] + t)[1..] == t;
    assert forall i | 0 <= i < |t| :: t[i] == ([g] + t)[i + 1];
  }

  lemma MembersCons(g: Group, t: seq<Group>, m: string)
    ensures MembersOf([g] + t, m) == (if g.key == m then g.members else []) + MembersOf(t, m)
  {
    assert ([g] + t)[1..] == t;
  }

  lemma DistinctCons(g: Group, t: seq<Group>)
    requires DistinctGroups(t) && g.key !in GroupKeys(t)
    ensures DistinctGroups([g] + t)
  {
    forall i, j | 0 <= i < j < |[g] + t| ensures ([g] + t)[i].key != ([g] + t)[j].key {
      assert ([g] + t)[j] == t[j - 1];
      if i == 0 {
        assert t[j - 1] in t;
      } else {
        assert ([g] + t)[i] == t[i - 1];
      }
    }
  }

  lemma GroupTail(g: Group, t: seq<Group>)
    requires DistinctGroups([g] + t)
    ensures DistinctGroups(t) && g.key !in GroupKeys(t)
  {
    var c := [g] + t;
    forall i, j | 0 <= i < j < |t| ensures t[i].key != t[j].key {
      assert t[i] == c[i + 1] && t[j] == c[j + 1];
    }
    forall i | 0 <= i < |t| ensures t[i].key != g.key {
      assert c[0] == g && t[i] == c[i + 1];
    }
    forall f | f in t ensures f.key != g.key {
      var i :| 0 <= i < |t| && t[i] == f;
    }
  }

  /** What adding one issue does to the group keys, their members and the total size. */
  lemma AddSpec(acc: seq<Group>, x: Issue, m: string)
    ensures GroupKeys(AddToGroup(acc, x)) == GroupKeys(acc) + {ProjectLabel(x)}
    ensures DistinctGroups(acc) ==> DistinctGroups(AddToGroup(acc, x))
    ensures DistinctGroups(acc) ==>
              MembersOf(AddToGroup(acc, x), m) == MembersOf(acc, m) + (if m == ProjectLabel(x) then [x] else [])
    ensures NonEmptyGroups(acc) ==> NonEmptyGroups(AddToGroup(acc, x))
    ensures Sizes(AddToGroup(acc, x)) == Sizes(acc) + 1
  {
    AddKeys(acc, x);
    if DistinctGroups(acc) {
      AddDistinct(acc, x);
      AddMembers(acc, x, m);
    }
  }

  lemma {:induction false} AddKeys(acc: seq<Group>, x: Issue)
    ensures GroupKeys(AddToGroup(acc, x)) == GroupKeys(acc) + {ProjectLabel(x)}
    ensures NonEmptyGroups(acc) ==> NonEmptyGroups(AddToGroup(acc, x))
    ensures Sizes(AddToGroup(acc, x)) == Sizes(acc) + 1
    decreases |acc|
  {
    var k := ProjectLabel(x);
    if acc == [] {
      GroupCons(Group(k, [x]), []);
    } else {
      var g, t := acc[0], acc[1..];
      assert acc == [g] + t;
      GroupCons(g, t);
      if g.key == k {
        GroupCons(g.(members := g.members + [x]), t);
      } else {
        AddKeys(t, x);
        GroupCons(g, AddToGroup(t, x));
      }
    }
  }

  lemma {:induction false} AddDistinct(acc: seq<Group>, x: Issue)
    requires DistinctGroups(acc)
    ensures DistinctGroups(AddToGroup(acc, x))
    decreases |acc|
  {
    var k := ProjectLabel(x);
    if acc != [] {
      var g, t := acc[0], acc[1..];
      assert acc == [g] + t;
      GroupTail(g, t);
      if g.key == k {
        GroupCons(g.(members := g.members + [x]), t);
        DistinctCons(g.(members := g.members + [x]), t);
      } else {
        AddDistinct(t, x);
        AddKeys(t, x);
        DistinctCons(g, AddToGroup(t, x));
      }
    }
  }

  lemma {:induction false} AddMembers(acc: seq<Group>, x: Issue, m: string)
    requires DistinctGroups(acc)
    ensures MembersOf(AddToGroup(acc, x), m) == MembersOf(acc, m) + (if m == ProjectLabel(x) then [x] else [])
    decreases |acc|
  {
    if acc == [] {
      MembersCons(Group(ProjectLabel(x), [x]), [], m);
    } else {
      var g, t := acc[0], acc[1..];
      assert acc == [g] + t;
      GroupTail(g, t);
      if g.key == ProjectLabel(x) {
        AddMembersHere(g, t, x, m);
      } else {
        MembersCons(g, t, m);
        AddMembers(t, x, m);
        MembersCons(g, AddToGroup(t, x), m);
      }
    }
  }

  lemma AddMembersHere(g: Group, t: seq<Group>, x: Issue, m: string)
    requires g.key == ProjectLabel(x) && g.key !in GroupKeys(t)
    ensures MembersOf([g.(members := g.members + [x])] + t, m) == MembersOf([g] + t, m) + (if m == g.key then [x] else [])
  {
    MembersCons(g, t, m);
    MembersCons(g.(members := g.members + [x]), t, m);
    if m == g.key {
      forall i | 0 <= i < |t| ensures t[i].key != m {
        assert t[i] in t;
      }
      MembersOfAbsent(t, m);
    }
  }

  /** The grouping reduce: one group per project (missing projects under NO_PROJECT), in order
      of first occurrence, each holding its issues in their original order. */
  function GroupByProject(issues: seq<Issue>): (r: seq<Group>)
    ensures DistinctGroups(r)
    ensures GroupKeys(r) == set x | x in issues :: ProjectLabel(x)
    ensures forall m :: MembersOf(r, m) == Where(issues, m)
    ensures NonEmptyGroups(r)
    ensures Sizes(r) == |issues|
    decreases |issues|
  {
    if issues == [] then []
    else
      var n := |issues| - 1;
      var prev := GroupByProject(issues[..n]);
      GroupStep(issues, prev);
      AddToGroup(prev, issues[n])
  }

  lemma GroupStep(issues: seq<Issue>, prev: seq<Group>)
    requires |issues| > 0
    requires var n := |issues| - 1;
             && DistinctGroups(prev)
             && GroupKeys(prev) == (set x | x in issues[..n] :: ProjectLabel(x))
             && (forall m :: MembersOf(prev, m) == Where(issues[..n], m))
             && NonEmptyGroups(prev)
             && Sizes(prev) == n
    ensures var r := AddToGroup(prev, issues[|issues| - 1]);
            && DistinctGroups(r)
            && GroupKeys(r) == (set x | x in issues :: ProjectLabel(x))
            && (forall m :: MembersOf(r, m) == Where(issues, m))
            && NonEmptyGroups(r)
            && Sizes(r) == |issues|
  {
    var n := |issues| - 1;
    assert issues == issues[..n] + [issues[n]];
    forall m ensures MembersOf(AddToGroup(prev, issues[n]), m) == Where(issues, m) {
      AddSpec(prev, issues[n], m);
    }
    AddSpec(prev, issues[n], "");
    assert (set x | x in issues :: ProjectLabel(x)) == (set x | x in issues[..n] :: ProjectLabel(x)) + {ProjectLabel(issues[n])};
  }

  lemma {:induction false} MembersOfGroup(r: seq<Group>, i: nat)
    requires DistinctGroups(r) && i < |r|
    ensures MembersOf(r, r[i].key) == r[i].members
    decreases |r|
  {
    if i == 0 {
      MembersOfAbsent(r[1..], r[0].key);
    } else {
      MembersOfGroup(r[1..], i - 1);
    }
  }

  lemma {:induction false} MembersOfAbsent(r: seq<Group>, m: string)
    requires forall i | 0 <= i < |r| :: r[i].key != m
    ensures MembersOf(r, m) == []
    decreases |r|
  {
    if r != [] {
      MembersOfAbsent(r[1..], m);
    }
  }

  lemma {:induction false} WhereMembers(issues: seq<Issue>, m: string)
    ensures forall x | x in Where(issues, m) :: x in issues && ProjectLabel(x) == m
    ensures forall x | x in issues && ProjectLabel(x) == m :: x in Where(issues, m)
    decreases |issues|
  {
    if issues != [] {
      var n := |issues| - 1;
      WhereMembers(issues[..n], m);
      assert issues == issues[..n] + [issues[n]];
    }
  }

  /** The grouping partitions the issues: each group holds exactly the issues of its project, in
      their original order, so every issue lands in exactly one group and the group sizes add
      up to the number of issues. */
  lemma GroupsPartition(issues: seq<Issue>)
    ensures var r := GroupByProject(issues);
            && (forall i | 0 <= i < |r| :: r[i].members == Where(issues, r[i].key))
            && (forall x | x in issues :: exists i | 0 <= i < |r| :: x in r[i].members)
            && (forall x, i | 0 <= i < |r| && x in r[i].members :: ProjectLabel(x) == r[i].key)
            && Sizes(r) == |issues|
  {
    var r := GroupByProject(issues);
    forall i | 0 <= i < |r| ensures r[i].members == Where(issues, r[i].key) {
      MembersOfGroup(r, i);
    }
    forall x | x in issues ensures exists i | 0 <= i < |r| :: x in r[i].members {
      assert ProjectLabel(x) in GroupKeys(r);
      var g :| g in r && g.key == ProjectLabel(x);
      var i :| 0 <= i < |r| && r[i] == g;
      WhereMembers(issues, g.key);
    }
    forall x, i | 0 <= i < |r| && x in r[i].members ensures ProjectLabel(x) == r[i].key {
      WhereMembers(issues, r[i].key);
    }
  }

  // ---------------------------------------------------------------------------------------
  // Sheet names

  /** The characters a sheet name may not hold. */
  predicate Forbidden(c: char) {
    c == ':' || c == '\\' || c == '/' || c == '?' || c == '*' || c == '[' || c == ']'
  }

  predicate Clean(s: string) {
    forall i | 0 <= i < |s| :: !Forbidden(s[i])
  }

  /** `s` with every forbidden character removed. */
  function Strip(s: string): (r: string)
    ensures Clean(r) && |r| <= |s|
    ensures Clean(s) ==> r == s
    decreases |s|
  {
    if s == [] then []
    else if Forbidden(s[0]) then Strip(s[1..])
    else [s[0]] + Strip(s[1..])
  }

  /** The first `n` characters of `s` (all of it when shorter). */
  function Take<T>(s: seq<T>, n: nat): (r: seq<T>)
    ensures r <= s && |r| == Min(n, |s|)
  {
    if |s| <= n then s else s[..n]
  }

  const SHEET_NAME_MAX: nat := 31

  /** The sanitised sheet name of a group key. */
  function Sanitize(key: string): (r: string)
    ensures Clean(r) && |r| <= SHEET_NAME_MAX
    ensures r <= Strip(key) && |r| == Min(SHEET_NAME_MAX, |Strip(key)|)
  {
    Take(Strip(key), SHEET_NAME_MAX)
  }

  /** Sanitising twice is sanitising once. */
  lemma SanitizeIdempotent(key: string)
    ensures Sanitize(Sanitize(key)) == Sanitize(key)
  {
  }

  /** A prefix of a clean string is clean. */
  lemma CleanPrefix(a: string, b: string)
    requires Clean(b) && a <= b
    ensures Clean(a)
  {
    assert forall i | 0 <= i < |a| :: a[i] == b[i];
  }

  /** The digit character of `d`. */
  function Digit(d: nat): (c: char)
    requires d < 10
    ensures '0' <= c <= '9'
  {
    ('0' as int + d) as char
  }

  predicate IsDigits(s: string) {
    forall i | 0 <= i < |s| :: '0' <= s[i] <= '9'
  }

  /** The decimal numeral of `n`, as a template literal prints it. */
  function Decimal(n: nat): (r: string)
    ensures |r| >= 1 && IsDigits(r)
    decreases n
  {
    if n < 10 then [Digit(n)] else Decimal(n / 10) + [Digit(n % 10)]
  }

  /** The number a numeral denotes: the inverse of `Decimal`. */
  function Value(s: string): nat
    requires IsDigits(s)
    decreases |s|
  {
    if s == [] then 0 else 10 * Value(s[..|s| - 1]) + (s[|s| - 1] as int - '0' as int)
  }

  lemma {:induction false} DecimalRoundTrip(n: nat)
    ensures Value(Decimal(n)) == n
    decreases n
  {
    if n >= 10 {
      DecimalRoundTrip(n / 10);
      var r := Decimal(n);
      assert r[..|r| - 1] == Decimal(n / 10);
    }
  }

  function Pow10(d: nat): nat {
    if d == 0 then 1 else 10 * Pow10(d - 1)
  }

  /** A number below 10^d has at most d digits. */
  lemma {:induction false} DecimalLength(n: nat, d: nat)
    requires d >= 1 && n < Pow10(d)
    ensures |Decimal(n)| <= d
    decreases n
  {
    if n >= 10 {
      assert d >= 2;
      DecimalLength(n / 10, d - 1);
    }
  }

  /** `String.prototype.slice(0, end)`: a negative end counts from the end of the string. */
  function JsSliceTo(s: string, end: int): (r: string)
    ensures r <= s
    ensures 0 <= end ==> |r| == Min(end, |s|)
  {
    if end < 0 then (if |s| + end <= 0 then [] else s[..|s| + end])
    else Take(s, end)
  }

  function Suffix(k: nat): string {
    "_" + Decimal(k)
  }

  /** The name tried after `k` collisions: the base cut short to leave room for `_k`. */
  function Candidate(base: string, k: nat): string {
    JsSliceTo(base, SHEET_NAME_MAX - |Suffix(k)|) + Suffix(k)
  }

  /** Distinct suffix numbers give distinct candidates, so the loop never tries a name twice. */
  lemma CandidateInjective(base: string, j: nat, k: nat)
    requires j != k
    ensures Candidate(base, j) != Candidate(base, k)
  {
    var sj, sk := Suffix(j), Suffix(k);
    if |sj| == |sk| {
      DecimalRoundTrip(j);
      DecimalRoundTrip(k);
      assert sj[1..] == Decimal(j) && sk[1..] == Decimal(k);
      var a, b := Candidate(base, j), Candidate(base, k);
      assert a[|a| - |sj|..] == sj && b[|b| - |sk|..] == sk;
    } else if |sj| < |sk| {
      SuffixClash(base, j, k);
    } else {
      SuffixClash(base, k, j);
    }
  }

  /** Where the shorter suffix starts, the longer one has a digit. */
  lemma SuffixClash(base: string, j: nat, k: nat)
    requires |Suffix(j)| < |Suffix(k)|
    ensures Candidate(base, j) != Candidate(base, k)
  {
    var a, b := Candidate(base, j), Candidate(base, k);
    var sj, sk := Suffix(j), Suffix(k);
    if |a| == |b| {
      assert a[|a| - |sj|] == sj[0] == '_';
      assert b[|b| - |sj|] == sk[|sk| - |sj|] == Decimal(k)[|sk| - |sj| - 1];
    }
  }

  /** Every candidate of a clean base is clean, and within the length limit while `_k` is. */
  lemma CandidateShape(base: string, k: nat)
    requires Clean(base) && |base| <= SHEET_NAME_MAX
    ensures Clean(Candidate(base, k))
    ensures k < Pow10(SHEET_NAME_MAX - 1) ==> |Candidate(base, k)| <= SHEET_NAME_MAX
  {
    var p := JsSliceTo(base, SHEET_NAME_MAX - |Suffix(k)|);
    CleanPrefix(p, base);
    var c := Candidate(base, k);
    forall i | 0 <= i < |c| ensures !Forbidden(c[i]) {
      if i >= |p| {
        assert c[i] == Suffix(k)[i - |p|];
      }
    }
    if k < Pow10(SHEET_NAME_MAX - 1) {
      DecimalLength(k, SHEET_NAME_MAX - 1);
    }
  }

  /** The candidates with suffixes 1 to `n`. */
  function Tried(base: string, n: nat): set<string>
    decreases n
  {
    if n == 0 then {} else Tried(base, n - 1) + {Candidate(base, n)}
  }

  lemma {:induction false} TriedShape(base: string, n: nat)
    ensures |Tried(base, n)| == n
    ensures forall k | k > n :: Candidate(base, k) !in Tried(base, n)
    ensures forall j | 1 <= j <= n :: Candidate(base, j) in Tried(base, n)
    decreases n
  {
    if n > 0 {
      TriedShape(base, n - 1);
      forall k | k > n ensures Candidate(base, k) != Candidate(base, n) {
        CandidateInjective(base, k, n);
      }
    }
  }

  /** Picks the name of a new sheet: `base` when unused, otherwise the first candidate
      `_1`, `_2`, ... not in `sheetNames`; `k` is the suffix used (0 for none). */
  method UniqueSheetName(base: string, sheetNames: set<string>) returns (name: string, k: nat)
    ensures name !in sheetNames
    ensures name == if k == 0 then base else Candidate(base, k)
    ensures k == 0 <==> base !in sheetNames
    ensures forall j | 1 <= j < k :: Candidate(base, j) in sheetNames
    ensures k <= |sheetNames| + 1
  {
    name := base;
    var count := 1;
    while name in sheetNames
      invariant count >= 1
      invariant name == if count == 1 then base else Candidate(base, count - 1)
      invariant count > 1 ==> base in sheetNames
      invariant Tried(base, if count >= 2 then count - 2 else 0) <= sheetNames
      decreases |sheetNames - Tried(base, if count >= 2 then count - 2 else 0)|, if count == 1 then 1 else 0
    {
      if count > 1 {
        TriedGrows(base, count - 2, sheetNames);
      }
      var suffix := "_" + Decimal(count);
      count := count + 1;
      name := JsSliceTo(base, SHEET_NAME_MAX - |suffix|) + suffix;
    }
    k := count - 1;
    if k >= 1 {
      TriedShape(base, k - 1);
      SubsetSize(Tried(base, k - 1), sheetNames);
    }
  }

  /** One more candidate found taken: the taken candidates grow, and fewer names are left. */
  lemma TriedGrows(base: string, n: nat, sheetNames: set<string>)
    requires Tried(base, n) <= sheetNames && Candidate(base, n + 1) in sheetNames
    ensures Tried(base, n + 1) <= sheetNames
    ensures |sheetNames - Tried(base, n + 1)| < |sheetNames - Tried(base, n)|
  {
    TriedShape(base, n);
    assert sheetNames - Tried(base, n + 1) < sheetNames - Tried(base, n);
  }

  lemma SubsetSize(a: set<string>, b: set<string>)
    requires a <= b
    ensures |a| <= |b|
  {
    assert b == a + (b - a);
  }

  /** `name`, with suffix `k`, is the name the sheet of group `key` gets when the names in
      `before` are taken: the sanitised key when free, else the first free candidate. */
  predicate SheetNamed(key: string, name: string, k: nat, before: seq<string>) {
    var base := Sanitize(key);
    && name == (if k == 0 then base else Candidate(base, k))
    && name !in before
    && (k == 0 <==> base !in before)
    && (forall j | 1 <= j < k :: Candidate(base, j) in before)
  }

  /** The first `|names|` groups are named by `names` with suffixes `suffixes`, each sheet
      named given those before it. */
  predicate AllNamed(groupKeys: seq<string>, names: seq<string>, suffixes: seq<nat>) {
    && |names| == |suffixes| <= |groupKeys|
    && (forall a | 0 <= a < |names| :: SheetNamed(groupKeys[a], names[a], suffixes[a], names[..a]))
    && (forall a | 0 <= a < |names| :: suffixes[a] <= a + 1)
  }

  lemma NameStep(groupKeys: seq<string>, names: seq<string>, suffixes: seq<nat>, name: string, k: nat)
    requires AllNamed(groupKeys, names, suffixes) && |names| < |groupKeys|
    requires SheetNamed(groupKeys[|names|], name, k, names) && k <= |names| + 1
    ensures AllNamed(groupKeys, names + [name], suffixes + [k])
  {
    var names', suffixes' := names + [name], suffixes + [k];
    forall a | 0 <= a < |names'|
      ensures SheetNamed(groupKeys[a], names'[a], suffixes'[a], names'[..a]) && suffixes'[a] <= a + 1
    {
      if a < |names| {
        assert names'[..a] == names[..a] && names'[a] == names[a] && suffixes'[a] == suffixes[a];
      } else {
        assert names'[..a] == names;
      }
    }
  }

  /** No name occurs among those before it, so no two are equal. */
  lemma NamesDistinct(names: seq<string>)
    requires forall i | 0 <= i < |names| :: names[i] !in names[..i]
    ensures forall i, j | 0 <= i < j < |names| :: names[i] != names[j]
  {
    forall i, j | 0 <= i < j < |names| ensures names[i] != names[j] {
      assert names[..j][i] == names[i];
    }
  }

  /** Names the sheets of the groups `groupKeys`, in order, adding each name to the set of
      names used: every name is clean and none is used twice; `suffixes[i]` is the suffix the
      i-th name got (0 for none). */
  method NameSheets(groupKeys: seq<string>) returns (names: seq<string>, ghost suffixes: seq<nat>)
    ensures |names| == |suffixes| == |groupKeys|
    ensures forall i | 0 <= i < |names| :: SheetNamed(groupKeys[i], names[i], suffixes[i], names[..i])
    ensures forall i, j | 0 <= i < j < |names| :: names[i] != names[j]
    ensures forall i | 0 <= i < |names| :: Clean(names[i])
    ensures |groupKeys| < Pow10(SHEET_NAME_MAX - 1) ==> forall i | 0 <= i < |names| :: |names[i]| <= SHEET_NAME_MAX
  {
    names, suffixes := [], [];
    var sheetNames: set<string> := {};
    for i := 0 to |groupKeys|
      invariant |names| == i
      invariant forall n :: n in sheetNames <==> n in names
      invariant |sheetNames| == i
      invariant AllNamed(groupKeys, names, suffixes)
    {
      var base := Sanitize(groupKeys[i]);
      var name, k := UniqueSheetName(base, sheetNames);
      NameStep(groupKeys, names, suffixes, name, k);
      assert |sheetNames + {name}| == |sheetNames| + 1;
      names, suffixes := names + [name], suffixes + [k];
      sheetNames := sheetNames + {name};
    }
    NamesDistinct(names);
    forall i | 0 <= i < |names|
      ensures Clean(names[i])
      ensures |groupKeys| < Pow10(SHEET_NAME_MAX - 1) ==> |names[i]| <= SHEET_NAME_MAX
    {
      CandidateShape(Sanitize(groupKeys[i]), suffixes[i]);
    }
  }

  // ---------------------------------------------------------------------------------------
  // The PDF table

  /** A table cell: plain text, styled text, a cell spanning several columns, or an empty
      placeholder under a span. */
  datatype Cell =
    | Plain(text: string)
    | Styled(text: string, style: string)
    | Span(text: string, colSpan: nat, style: string, alignment: string)
    | Blank

  const COLUMNS: seq<string> := ["Projeto", "Tipo", "Severidade", "Mensagem", "Componente"]
  const ROW_LIMIT: nat := 1000

  function HeaderRow(): seq<Cell> {
    seq(|COLUMNS|, i requires 0 <= i < |COLUMNS| => Styled(COLUMNS[i], "tableHeader"))
  }

  /** A field's text, "-" when missing. */
  function OrDash(v: Option<string>): string {
    match v
    case Some(s) => s
    case None => "-"
  }

  function IssueRow(x: Issue): seq<Cell> {
    [Plain(OrDash(x.project)), Plain(OrDash(x.issueType)), Plain(OrDash(x.severity)),
     Styled(OrDash(x.message), "wrapCell"), Plain(OrDash(x.component))]
  }

  function MoreRow(n: nat): seq<Cell> {
    [Span("... e mais " + Decimal(n) + " issues", |COLUMNS|, "moreIssues", "center"), Blank, Blank, Blank, Blank]
  }

  /** The body of the PDF table: the header, the rows of the first ROW_LIMIT issues in order,
      and, when there are more, one row reporting how many were left out. */
  function TableBody(issues: seq<Issue>): (r: seq<seq<Cell>>)
    ensures |r| == 1 + Min(|issues|, ROW_LIMIT) + (if |issues| > ROW_LIMIT then 1 else 0)
    ensures forall i | 0 <= i < |r| :: |r[i]| == |COLUMNS|
    ensures r[0] == HeaderRow()
    ensures forall i | 0 <= i < Min(|issues|, ROW_LIMIT) :: r[i + 1] == IssueRow(issues[i])
    ensures |issues| > ROW_LIMIT ==> r[|r| - 1] == MoreRow(|issues| - ROW_LIMIT)
  {
    var shown := Take(issues, ROW_LIMIT);
    [HeaderRow()]
    + seq(|shown|, i requires 0 <= i < |shown| => IssueRow(shown[i]))
    + (if |issues| > ROW_LIMIT then [MoreRow(|issues| - ROW_LIMIT)] else [])
  }

  /** The overflow row's numeral reads back as the number of issues left out of the table. */
  lemma OverflowReportsRest(issues: seq<Issue>)
    requires |issues| > ROW_LIMIT
    ensures var t := TableBody(issues)[|TableBody(issues)| - 1][0].text;
            var prefix := "... e mais ";
            && |t| > |prefix| + 7
            && t[..|prefix|] == prefix
            && t[|t| - 7..] == " issues"
            && IsDigits(t[|prefix|..|t| - 7])
            && Value(t[|prefix|..|t| - 7]) == |issues| - ROW_LIMIT
  {
    var d := Decimal(|issues| - ROW_LIMIT);
    var t := "... e mais " + d + " issues";
    assert t[|"... e mais "|..|t| - 7] == d;
    DecimalRoundTrip(|issues| - ROW_LIMIT);
  }

  const HEADER_FILL: string := "#2c3e50"
  const STRIPE_FILL: string := "#f8f9fa"

  /** The fill of table row `i`: the header colour for the header, light grey for the other
      even rows, none for odd rows. */
  function FillColor(i: nat): (r: Option<string>)
    ensures r == Some(HEADER_FILL) <==> i == 0
    ensures r == Some(STRIPE_FILL) <==> i > 0 && i % 2 == 0
    ensures r.None? <==> i % 2 == 1
  {
    if i == 0 then Some(HEADER_FILL)
    else if i % 2 == 0 then Some(STRIPE_FILL)
    else None
  }

  /** Below the header the fills alternate: of two consecutive rows exactly one is filled. */
  lemma FillAlternates(i: nat)
    requires i >= 1
    ensures FillColor(i).None? != FillColor(i + 1).None?
    ensures FillColor(i + 2) == FillColor(i)
  {
  }
}
