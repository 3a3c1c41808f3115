/** Merging a query's result into the issues collected for one project, skipping every issue
    whose key was already seen. */
module Dedup {
  import opened Model
  import opened Search

  /** The issues of `batch` whose key is neither in `seen` nor carried by an earlier issue of
      `batch`, in batch order. */
  function Fresh(seen: set<string>, batch: seq<Issue>): (r: seq<Issue>)
    ensures DistinctKeys(r)
    ensures Keys(r) !! seen
    ensures seen + Keys(r) == seen + Keys(batch)
    ensures forall x | x in r :: x in batch
    decreases |batch|
  {
    if batch == [] then []
    else
      KeysAppend([batch[0]], batch[1..]);
      assert batch == [batch[0]] + batch[1..];
      if batch[0].key in seen then Fresh(seen, batch[1..])
      else
        var tail := Fresh(seen + {batch[0].key}, batch[1..]);
        KeysAppend([batch[0]], tail);
        DistinctAppend([batch[0]], tail);
        [batch[0]] + tail
  }

  /** One step of `Fresh`: the head is kept exactly when its key is unseen, and then counts as seen. */
  lemma FreshCons(seen: set<string>, b: Issue, tail: seq<Issue>)
    ensures Fresh(seen, [b] + tail) ==
            if b.key in seen then Fresh(seen, tail) else [b] + Fresh(seen + {b.key}, tail)
  {
    assert ([b] + tail)[0] == b && ([b] + tail)[1..] == tail;
  }

  /** Filtering two batches in a row is filtering their concatenation: the second batch is
      filtered against the keys seen before plus every key of the first. */
  lemma {:induction false} FreshAppend(seen: set<string>, a: seq<Issue>, b: seq<Issue>)
    ensures Fresh(seen, a + b) == Fresh(seen, a) + Fresh(seen + Keys(a), b)
    decreases |a|
  {
    if a == [] {
      assert a + b == b;
      assert seen + Keys(a) == seen;
    } else {
      var x, t := a[0], a[1..];
      assert a == [x] + t;
      FreshAppend(if x.key in seen then seen else seen + {x.key}, t, b);
      FreshAppendCons(seen, x, t, b);
    }
  }

  /** The inductive step of `FreshAppend`: one more issue in front of the first batch. */
  lemma FreshAppendCons(seen: set<string>, x: Issue, t: seq<Issue>, b: seq<Issue>)
    requires var seen' := if x.key in seen then seen else seen + {x.key};
             Fresh(seen', t + b) == Fresh(seen', t) + Fresh(seen' + Keys(t), b)
    ensures Fresh(seen, [x] + t + b) == Fresh(seen, [x] + t) + Fresh(seen + Keys([x] + t), b)
  {
    assert [x] + t + b == [x] + (t + b);
    KeysCons(seen, x, t);
    FreshCons(seen, x, t + b);
    FreshCons(seen, x, t);
    if x.key !in seen {
      ConsAssoc(x, Fresh(seen + {x.key}, t), Fresh(seen + {x.key} + Keys(t), b));
    }
  }

  lemma ConsAssoc(x: Issue, p: seq<Issue>, q: seq<Issue>)
    ensures [x] + (p + q) == ([x] + p) + q
  {
  }

  /** The keys seen after a batch with `x` in front: those seen after `x`, then the rest. */
  lemma KeysCons(seen: set<string>, x: Issue, t: seq<Issue>)
    ensures seen + Keys([x] + t) == (if x.key in seen then seen else seen + {x.key}) + Keys(t)
  {
    KeysAppend([x], t);
    assert Keys([x]) == {x.key};
  }

  /** The position of the first issue of `batch` with key `k`. */
  function FirstIndex(batch: seq<Issue>, k: string): (r: nat)
    requires k in Keys(batch)
    ensures r < |batch| && batch[r].key == k
    ensures forall i | 0 <= i < r :: batch[i].key != k
    decreases |batch|
  {
    if batch[0].key == k then 0
    else
      KeysAppend([batch[0]], batch[1..]);
      assert batch == [batch[0]] + batch[1..];
      1 + FirstIndex(batch[1..], k)
  }

  /** `Fresh` keeps exactly the first occurrences: each issue it returns is the first issue of
      the batch carrying its key, and they come in the order of those first occurrences. With
      the contract of `Fresh` (every unseen key of the batch is kept, no seen key is) this
      determines the result. */
  lemma {:induction false} FreshFirstOccurrences(seen: set<string>, batch: seq<Issue>)
    ensures FirstOccurrences(Fresh(seen, batch), batch)
    decreases |batch|
  {
    if batch != [] {
      var b, tail := batch[0], batch[1..];
      var seen' := if b.key in seen then seen else seen + {b.key};
      var f := Fresh(seen', tail);
      assert batch == [b] + tail;
      FreshCons(seen, b, tail);
      FreshFirstOccurrences(seen', tail);
      assert b.key in seen';
      assert Keys(f) !! seen';
      forall i | 0 <= i < |f| ensures f[i].key != b.key {
        assert f[i] in f;
        assert f[i].key in Keys(f);
      }
      FirstOccurrencesCons(b, f, tail);
      if b.key !in seen {
        FirstOccurrencesHead(b, f, tail);
      }
    }
  }

  /** Each issue of `r` is the first issue of `batch` with its key, in the order of those
      first occurrences. */
  ghost predicate FirstOccurrences(r: seq<Issue>, batch: seq<Issue>) {
    && (forall i | 0 <= i < |r| :: r[i].key in Keys(batch) && r[i] == batch[FirstIndex(batch, r[i].key)])
    && (forall i, j | 0 <= i < j < |r| :: FirstIndex(batch, r[i].key) < FirstIndex(batch, r[j].key))
  }

  lemma FirstIndexCons(b: Issue, tail: seq<Issue>, k: string)
    requires k in Keys(tail) && k != b.key
    ensures k in Keys([b] + tail) && FirstIndex([b] + tail, k) == 1 + FirstIndex(tail, k)
  {
    KeysAppend([b], tail);
    assert ([b] + tail)[1..] == tail;
  }

  lemma FirstOccurrencesCons(b: Issue, f: seq<Issue>, tail: seq<Issue>)
    requires FirstOccurrences(f, tail)
    requires forall i | 0 <= i < |f| :: f[i].key != b.key
    ensures FirstOccurrences(f, [b] + tail)
  {
    forall i | 0 <= i < |f| ensures f[i].key in Keys([b] + tail) && FirstIndex([b] + tail, f[i].key) == 1 + FirstIndex(tail, f[i].key) {
      FirstIndexCons(b, tail, f[i].key);
    }
  }

  lemma FirstOccurrencesHead(b: Issue, f: seq<Issue>, tail: seq<Issue>)
    requires FirstOccurrences(f, [b] + tail)
    requires forall i | 0 <= i < |f| :: f[i].key != b.key
    ensures FirstOccurrences([b] + f, [b] + tail)
  {
    KeysAppend([b], tail);
    HeadFirst(b, tail);
    HeadItems(b, f, tail);
    HeadOrder(b, f, tail);
  }

  lemma HeadFirst(b: Issue, tail: seq<Issue>)
    ensures b.key in Keys([b] + tail) && FirstIndex([b] + tail, b.key) == 0
  {
    KeysAppend([b], tail);
  }

  lemma HeadItems(b: Issue, f: seq<Issue>, tail: seq<Issue>)
    requires forall i | 0 <= i < |f| :: f[i].key in Keys([b] + tail) && f[i] == ([b] + tail)[FirstIndex([b] + tail, f[i].key)]
    requires b.key in Keys([b] + tail) && FirstIndex([b] + tail, b.key) == 0
    ensures forall i | 0 <= i < |[b] + f| ::
              ([b] + f)[i].key in Keys([b] + tail) && ([b] + f)[i] == ([b] + tail)[FirstIndex([b] + tail, ([b] + f)[i].key)]
  {
    forall i | 0 <= i < |[b] + f|
      ensures ([b] + f)[i].key in Keys([b] + tail) && ([b] + f)[i] == ([b] + tail)[FirstIndex([b] + tail, ([b] + f)[i].key)]
    {
      if i > 0 {
        assert ([b] + f)[i] == f[i - 1];
      }
    }
  }

  lemma HeadOrder(b: Issue, f: seq<Issue>, tail: seq<Issue>)
    requires forall i | 0 <= i < |f| :: f[i].key in Keys([b] + tail) && f[i].key != b.key
    requires forall i, j | 0 <= i < j < |f| :: FirstIndex([b] + tail, f[i].key) < FirstIndex([b] + tail, f[j].key)
    requires b.key in Keys([b] + tail) && FirstIndex([b] + tail, b.key) == 0
    ensures forall i, j | 0 <= i < j < |[b] + f| ::
              FirstIndex([b] + tail, ([b] + f)[i].key) < FirstIndex([b] + tail, ([b] + f)[j].key)
  {
    var r := [b] + f;
    forall i, j | 0 <= i < j < |r| ensures FirstIndex([b] + tail, r[i].key) < FirstIndex([b] + tail, r[j].key) {
      assert r[j] == f[j - 1];
      assert FirstIndex([b] + tail, f[j - 1].key) != 0;
      if i > 0 {
        assert r[i] == f[i - 1];
      }
    }
  }

  /** One iteration of the merge loop keeps what remains to be merged consistent with the total. */
  lemma MergeStep(merged: seq<Issue>, seen: set<string>, b: Issue, tail: seq<Issue>)
    ensures b.key in seen ==>
              merged + Fresh(seen, [b] + tail) == merged + Fresh(seen, tail) &&
              seen + Keys(Fresh(seen, [b] + tail)) == seen + Keys(Fresh(seen, tail))
    ensures b.key !in seen ==>
              merged + Fresh(seen, [b] + tail) == (merged + [b]) + Fresh(seen + {b.key}, tail) &&
              seen + Keys(Fresh(seen, [b] + tail)) == (seen + {b.key}) + Keys(Fresh(seen + {b.key}, tail))
  {
    FreshCons(seen, b, tail);
    if b.key !in seen {
      KeysAppend([b], Fresh(seen + {b.key}, tail));
    }
  }

  /** Appends to `projectIssues`, in order, the issues of `issues` whose key is not yet in
      `seenIssues`, adding each such key to `seenIssues` as it goes. */
  method MergeNew(projectIssues: seq<Issue>, seenIssues: set<string>, issues: seq<Issue>)
    returns (merged: seq<Issue>, seen: set<string>)
    ensures merged == projectIssues + Fresh(seenIssues, issues)
    ensures seen == seenIssues + Keys(Fresh(seenIssues, issues))
  {
    merged, seen := projectIssues, seenIssues;
    for i := 0 to |issues|
      invariant merged + Fresh(seen, issues[i..]) == projectIssues + Fresh(seenIssues, issues)
      invariant seen + Keys(Fresh(seen, issues[i..])) == seenIssues + Keys(Fresh(seenIssues, issues))
    {
      var issue := issues[i];
      assert issues[i..] == [issue] + issues[i + 1..];
      MergeStep(merged, seen, issue, issues[i + 1..]);
      if issue.key !in seen {
        seen := seen + {issue.key};
        merged := merged + [issue];
      }
    }
    assert issues[|issues|..] == [];
  }

  /** Runs query `q` on what is left of the script and merges its result into `h`. */
  function MergeQuery(q: Query, h: Harvest): Harvest {
    var run := Paginate(q, h.rest, 1, []);
    var added := Fresh(h.seen, run.issues);
    Harvest(h.issues + added, h.seen + Keys(added), run.rest, h.log + run.log)
  }

  /** The per-project invariant, relative to the keys `base` seen before the harvest `h` began:
      no two collected issues share a key, none has a key of `base`, and the seen set is
      exactly `base` plus the keys collected. */
  ghost predicate ValidOver(base: set<string>, h: Harvest) {
    && DistinctKeys(h.issues)
    && Keys(h.issues) !! base
    && h.seen == base + Keys(h.issues)
  }

  /** Merging a query keeps the invariant, only appends to the issues collected, and loses no
      key that the query returned. */
  lemma MergeQueryKeepsValid(base: set<string>, q: Query, h: Harvest)
    requires ValidOver(base, h)
    ensures var h' := MergeQuery(q, h);
            && ValidOver(base, h')
            && h.issues <= h'.issues
            && Keys(Paginate(q, h.rest, 1, []).issues) <= h'.seen
  {
    var run := Paginate(q, h.rest, 1, []);
    var added := Fresh(h.seen, run.issues);
    KeysAppend(h.issues, added);
    DistinctAppend(h.issues, added);
  }
}
