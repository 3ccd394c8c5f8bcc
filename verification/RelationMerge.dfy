/** "All my issues": the lists by assignee, by creator and by involvement merged
    under the client's order (packages/core/issues/queries.ts,
    fetchAllMyFlatIssues and fetchAllMyFirstPages). */
module RelationMerge {
  import opened IssueTypes
  import opened Buckets
  import opened QueryCache
  import opened IssueOrder
  import opened FlatWindows
  import opened Paging

  /** Map.set for each issue: a later copy replaces an earlier one in its place. */
  function Overlay(known: seq<Issue>, incoming: seq<Issue>): seq<Issue> {
    if incoming == [] then known
    else
      var n := |incoming| - 1;
      var before := Overlay(known, incoming[..n]);
      if incoming[n].id in IdsOf(before) then ReplaceById(before, incoming[n].id, incoming[n])
      else before + [incoming[n]]
  }

  // Sorting --------------------------------------------------------------------------

  function Insert(l: Locale, issues: seq<Issue>, i: Issue, sort: SortParam): seq<Issue> {
    if issues == [] || CompareIssuesForSort(l, i, issues[0], sort) < 0 then [i] + issues
    else [issues[0]] + Insert(l, issues[1..], i, sort)
  }

  /** Array.sort under compareIssuesForSort; SortedListsAreEqual shows that any other
      sorting algorithm gives the same list. */
  function Sorted(l: Locale, issues: seq<Issue>, sort: SortParam): seq<Issue> {
    if issues == [] then [] else Insert(l, Sorted(l, issues[1..], sort), issues[0], sort)
  }

  function Elements(issues: seq<Issue>): set<Issue> {
    set i | i in issues
  }

  lemma {:induction false} InsertKeepsElements(l: Locale, issues: seq<Issue>, i: Issue, sort: SortParam)
    ensures Elements(Insert(l, issues, i, sort)) == Elements(issues) + {i}
  {
    if issues != [] && CompareIssuesForSort(l, i, issues[0], sort) >= 0 {
      InsertKeepsElements(l, issues[1..], i, sort);
      assert issues == [issues[0]] + issues[1..];
      assert Elements(issues) == {issues[0]} + Elements(issues[1..]);
      var rest := Insert(l, issues[1..], i, sort);
      assert Elements([issues[0]] + rest) == {issues[0]} + Elements(rest);
    }
  }

  lemma {:induction false} SortKeepsElements(l: Locale, issues: seq<Issue>, sort: SortParam)
    ensures Elements(Sorted(l, issues, sort)) == Elements(issues)
  {
    if issues == [] {
    } else {
      SortKeepsElements(l, issues[1..], sort);
      InsertKeepsElements(l, Sorted(l, issues[1..], sort), issues[0], sort);
      assert issues == [issues[0]] + issues[1..];
    }
  }

  ghost predicate AllOneKind(s: set<Issue>, sort: SortParam) {
    forall i <- s, j <- s :: SameKind(i, j, sort)
  }

  lemma FrontIsSorted(l: Locale, issues: seq<Issue>, i: Issue, sort: SortParam)
    requires StrictlySorted(l, issues, sort) && AllOneKind(Elements(issues) + {i}, sort)
    requires issues != [] && CompareIssuesForSort(l, i, issues[0], sort) < 0
    ensures StrictlySorted(l, [i] + issues, sort)
  {
    forall k | 0 <= k < |issues|
      ensures CompareIssuesForSort(l, i, issues[k], sort) < 0
    {
      assert issues[0] in Elements(issues) && issues[k] in Elements(issues);
      if k > 0 {
        CompareIsTransitive(l, i, issues[0], issues[k], sort);
      }
    }
  }

  lemma {:induction false} InsertKeepsSorted(l: Locale, issues: seq<Issue>, i: Issue, sort: SortParam)
    requires StrictlySorted(l, issues, sort) && AllOneKind(Elements(issues) + {i}, sort)
    requires forall j <- issues :: j.id != i.id
    ensures StrictlySorted(l, Insert(l, issues, i, sort), sort)
  {
    if issues == [] {
    } else {
      var first, rest := issues[0], issues[1..];
      assert first in Elements(issues) && first in issues;
      CompareIsAntisymmetric(l, i, first, sort);
      if CompareIssuesForSort(l, i, first, sort) < 0 {
        FrontIsSorted(l, issues, i, sort);
      } else {
        assert Elements(rest) <= Elements(issues) && forall j <- rest :: j in issues;
        InsertKeepsSorted(l, rest, i, sort);
        InsertKeepsElements(l, rest, i, sort);
        FirstIsLeast(l, issues, i, Insert(l, rest, i, sort), sort);
      }
    }
  }

  lemma FirstIsLeast(l: Locale, issues: seq<Issue>, i: Issue, inserted: seq<Issue>, sort: SortParam)
    requires StrictlySorted(l, issues, sort) && issues != []
    requires Elements(inserted) == Elements(issues[1..]) + {i} && StrictlySorted(l, inserted, sort)
    requires CompareIssuesForSort(l, issues[0], i, sort) < 0
    ensures StrictlySorted(l, [issues[0]] + inserted, sort)
  {
    forall k | 0 <= k < |inserted|
      ensures CompareIssuesForSort(l, issues[0], inserted[k], sort) < 0
    {
      assert inserted[k] in Elements(inserted);
      if inserted[k] != i {
        var m :| 0 <= m < |issues[1..]| && issues[1..][m] == inserted[k];
        assert issues[1..][m] == issues[m + 1];
      }
    }
  }

  lemma {:induction false} SortedIsStrict(l: Locale, issues: seq<Issue>, sort: SortParam)
    requires UniqueIds(issues) && AllOneKind(Elements(issues), sort)
    ensures StrictlySorted(l, Sorted(l, issues, sort), sort)
  {
    if issues == [] {
    } else {
      var rest := issues[1..];
      assert Elements(rest) <= Elements(issues);
      SortedIsStrict(l, rest, sort);
      SortKeepsElements(l, rest, sort);
      var sorted := Sorted(l, rest, sort);
      forall j <- sorted
        ensures j.id != issues[0].id
      {
        assert j in Elements(sorted);
        var k :| 0 <= k < |rest| && rest[k] == j;
        assert issues[k + 1] == j;
      }
      assert Elements(sorted) + {issues[0]} <= Elements(issues);
      InsertKeepsSorted(l, sorted, issues[0], sort);
    }
  }

  lemma NoElements(issues: seq<Issue>)
    ensures Elements(issues) == {} <==> issues == []
  {
    if issues != [] {
      assert issues[0] in Elements(issues);
    }
  }

  /** Two sorted lists of the same issues are one list. */
  lemma {:induction false} SortedListsAreEqual(l: Locale, a: seq<Issue>, b: seq<Issue>, sort: SortParam)
    requires StrictlySorted(l, a, sort) && StrictlySorted(l, b, sort) && Elements(a) == Elements(b)
    requires AllOneKind(Elements(a), sort)
    ensures a == b
  {
    NoElements(a);
    NoElements(b);
    if a == [] {
    } else {
      SameFirst(l, a, b, sort);
      TailElements(l, a, sort);
      TailElements(l, b, sort);
      assert Elements(a[1..]) <= Elements(a);
      SortedListsAreEqual(l, a[1..], b[1..], sort);
      assert a == [a[0]] + a[1..] && b == [b[0]] + b[1..];
    }
  }

  lemma SameFirst(l: Locale, a: seq<Issue>, b: seq<Issue>, sort: SortParam)
    requires StrictlySorted(l, a, sort) && StrictlySorted(l, b, sort) && Elements(a) == Elements(b)
    requires AllOneKind(Elements(a), sort) && a != [] && b != []
    ensures a[0] == b[0]
  {
    assert a[0] in Elements(b) && b[0] in Elements(a);
    var j :| 0 <= j < |b| && b[j] == a[0];
    var k :| 0 <= k < |a| && a[k] == b[0];
    CompareIsAntisymmetric(l, a[0], b[0], sort);
  }

  /** The first of a sorted list does not come again. */
  lemma TailElements(l: Locale, a: seq<Issue>, sort: SortParam)
    requires StrictlySorted(l, a, sort) && a != [] && AllOneKind(Elements(a), sort)
    ensures Elements(a[1..]) == Elements(a) - {a[0]}
  {
    assert a[0] in Elements(a);
    CompareIsAntisymmetric(l, a[0], a[0], sort);
    forall k | 0 <= k < |a[1..]|
      ensures a[1..][k] != a[0] && a[1..][k] in Elements(a)
    {
      assert a[1..][k] == a[k + 1];
    }
    forall i | i in Elements(a) - {a[0]}
      ensures i in a[1..]
    {
      var k :| 0 <= k < |a| && a[k] == i;
      assert a[1..][k - 1] == i;
    }
  }

  // Merging ------------------------------------------------------------------------------

  /** Copies of one issue agree. */
  ghost predicate Agree(issues: set<Issue>) {
    forall i <- issues, j <- issues :: i.id == j.id ==> i == j
  }

  lemma {:induction false} AbsorbedElements(known: seq<Issue>, incoming: seq<Issue>)
    requires Agree(Elements(known) + Elements(incoming))
    ensures Elements(Absorb(known, incoming)) == Elements(known) + Elements(incoming)
  {
    if incoming == [] {
      NoElements(incoming);
    } else {
      var n := |incoming| - 1;
      SplitElements(incoming);
      AbsorbedElements(known, incoming[..n]);
      var before := Absorb(known, incoming[..n]);
      if incoming[n].id in IdsOf(before) {
        var i :| i in before && i.id == incoming[n].id;
        assert i in Elements(before);
      } else {
        assert Elements(before + [incoming[n]]) == Elements(before) + {incoming[n]};
      }
    }
  }

  lemma SplitElements(issues: seq<Issue>)
    requires issues != []
    ensures Elements(issues) == Elements(issues[..|issues| - 1]) + {issues[|issues| - 1]}
  {
    var n := |issues| - 1;
    assert issues == issues[..n] + [issues[n]];
  }

  /** When copies agree, overwriting an earlier copy is keeping it. */
  lemma {:induction false} OverlayIsAbsorb(known: seq<Issue>, incoming: seq<Issue>)
    requires UniqueIds(known) && Agree(Elements(known) + Elements(incoming))
    ensures Overlay(known, incoming) == Absorb(known, incoming)
  {
    if incoming == [] {
    } else {
      var n := |incoming| - 1;
      SplitElements(incoming);
      OverlayIsAbsorb(known, incoming[..n]);
      AbsorbedElements(known, incoming[..n]);
      var before := Absorb(known, incoming[..n]);
      if incoming[n].id in IdsOf(before) {
        forall k | 0 <= k < |before| && before[k].id == incoming[n].id
          ensures before[k] == incoming[n]
        {
          assert before[k] in Elements(before);
        }
        assert ReplaceById(before, incoming[n].id, incoming[n]) == before;
      }
    }
  }

  lemma MergeStep(known: seq<Issue>, incoming: seq<Issue>, found: set<Issue>)
    requires UniqueIds(known) && Elements(known) <= found && Elements(incoming) <= found && Agree(found)
    ensures Overlay(known, incoming) == Absorb(known, incoming) && UniqueIds(Absorb(known, incoming))
    ensures Elements(Absorb(known, incoming)) == Elements(known) + Elements(incoming)
  {
    OverlayIsAbsorb(known, incoming);
    AbsorbedElements(known, incoming);
    AbsorbedIds(known, incoming);
  }

  method OverlayEach(known: seq<Issue>, incoming: seq<Issue>) returns (r: seq<Issue>)
    ensures r == Overlay(known, incoming)
  {
    r := known;
    for n := 0 to |incoming|
      invariant r == Overlay(known, incoming[..n])
    {
      assert incoming[..n + 1][..n] == incoming[..n] && incoming[..n + 1][n] == incoming[n];
      r := if incoming[n].id in IdsOf(r) then ReplaceById(r, incoming[n].id, incoming[n]) else r + [incoming[n]];
    }
    assert incoming[..|incoming|] == incoming;
  }

  /** The merged list is the one sorted list of the issues found by any relation. */
  ghost predicate IsMerge(l: Locale, r: seq<Issue>, found: set<Issue>, sort: SortParam) {
    StrictlySorted(l, r, sort) && Elements(r) == found
  }

  /** fetchAllMyFlatIssues, given the three fetched lists. */
  method MergeFlat(l: Locale, relations: seq<seq<Issue>>, sort: SortParam) returns (r: seq<Issue>)
    requires |relations| == 3
    ensures
      var found := Elements(relations[0]) + Elements(relations[1]) + Elements(relations[2]);
      Agree(found) && AllOneKind(found, sort) ==> IsMerge(l, r, found, sort)
    ensures r == Sorted(l, Overlay(Overlay(Overlay([], relations[0]), relations[1]), relations[2]), sort)
  {
    var byId := OverlayEach([], relations[0]);
    byId := OverlayEach(byId, relations[1]);
    byId := OverlayEach(byId, relations[2]);
    r := Sorted(l, byId, sort);
    var found := Elements(relations[0]) + Elements(relations[1]) + Elements(relations[2]);
    if Agree(found) && AllOneKind(found, sort) {
      MergesAgree(l, relations, sort);
    }
  }

  /** fetchAllMyFirstPages, for one status bucket. */
  method MergeBucket(l: Locale, relations: seq<seq<Issue>>, sort: SortParam) returns (b: Bucket)
    requires |relations| == 3
    ensures
      var found := Elements(relations[0]) + Elements(relations[1]) + Elements(relations[2]);
      Agree(found) && AllOneKind(found, sort) ==> IsMerge(l, b.issues, found, sort)
    ensures b.issues == Sorted(l, Absorb(Absorb(Absorb([], relations[0]), relations[1]), relations[2]), sort)
    ensures b.total == |b.issues|
  {
    var seen: set<string>, merged: seq<Issue>, added: nat := {}, [], 0;
    merged, seen, added := AbsorbPage(merged, seen, relations[0]);
    merged, seen, added := AbsorbPage(merged, seen, relations[1]);
    merged, seen, added := AbsorbPage(merged, seen, relations[2]);
    merged := Sorted(l, merged, sort);
    b := Bucket(merged, |merged|);
    var found := Elements(relations[0]) + Elements(relations[1]) + Elements(relations[2]);
    if Agree(found) && AllOneKind(found, sort) {
      MergesAgree(l, relations, sort);
    }
  }

  /** First-wins and last-wins merging give the same list when copies agree. */
  lemma MergesAgree(l: Locale, relations: seq<seq<Issue>>, sort: SortParam)
    requires |relations| == 3
    requires
      var found := Elements(relations[0]) + Elements(relations[1]) + Elements(relations[2]);
      Agree(found) && AllOneKind(found, sort)
    ensures
      var found := Elements(relations[0]) + Elements(relations[1]) + Elements(relations[2]);
      var first := Absorb(Absorb(Absorb([], relations[0]), relations[1]), relations[2]);
      && Overlay(Overlay(Overlay([], relations[0]), relations[1]), relations[2]) == first
      && IsMerge(l, Sorted(l, first, sort), found, sort)
  {
    NoElements([]);
    var found := Elements(relations[0]) + Elements(relations[1]) + Elements(relations[2]);
    MergeStep([], relations[0], found);
    var one := Absorb([], relations[0]);
    MergeStep(one, relations[1], found);
    var two := Absorb(one, relations[1]);
    MergeStep(two, relations[2], found);
    var all := Absorb(two, relations[2]);
    SortedIsStrict(l, all, sort);
    SortKeepsElements(l, all, sort);
  }

  /** Whatever the order of the relations and whichever way duplicates are dropped,
      the merge is the same list. */
  lemma MergeIsUnique(l: Locale, r: seq<Issue>, s: seq<Issue>, found: set<Issue>, sort: SortParam)
    requires AllOneKind(found, sort)
    requires IsMerge(l, r, found, sort) && IsMerge(l, s, found, sort)
    ensures r == s
  {
    SortedListsAreEqual(l, r, s, sort);
  }
}
