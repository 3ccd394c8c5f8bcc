/** The bucket helpers act on the buckets as delete, insert and update act on a
    plain map from id to issue, keep the buckets well shaped and sorted, and
    account for every total. */
module BucketLaws {
  import opened IssueTypes
  import opened Buckets

  /** If id's copy is replaced by m (or dropped) and nothing else moves, the
      cache keeps its shape and its contents change as a map's would. */
  lemma Rebuilt(c: ListCache, r: ListCache, id: string, m: Option<Issue>)
    requires Shaped(c)
    requires m.Some? ==> m.value.id == id
    requires forall s: Status :: BucketOk(s, GetBucket(r, s))
    requires forall i :: Loaded(r, i) <==> (Loaded(c, i) && i.id != id) || m == Some(i)
    ensures Shaped(r)
    ensures Contents(r) == if m.Some? then Contents(c)[id := m.value] else Contents(c) - {id}
  {
    assert Shaped(r);
    var want := if m.Some? then Contents(c)[id := m.value] else Contents(c) - {id};
    forall k
      ensures k in Contents(r) <==> k in want
      ensures k in want ==> Contents(r)[k] == want[k]
    {
      Found(r, k);
      Found(c, k);
      if k in want {
        LoadedIsFound(c, want[k]);
        LoadedIsFound(r, want[k]);
      }
      if k in Contents(r) {
        LoadedIsFound(r, Contents(r)[k]);
        LoadedIsFound(c, Contents(r)[k]);
      }
    }
  }

  /** What the buckets look like where an issue is found. */
  lemma FoundBucket(c: ListCache, id: string)
    requires Shaped(c) && FindIssueLocation(c, id).Some?
    ensures
      var loc := FindIssueLocation(c, id).value;
      && loc.issue.id == id && loc.issue.status == loc.status && Loaded(c, loc.issue)
      && UniqueIds(GetBucket(c, loc.status).issues)
      && id in Contents(c) && Contents(c)[id] == loc.issue
      && forall i :: Loaded(c, i) && i.id == id ==> i == loc.issue
  {
    Found(c, id);
    var loc := FindIssueLocation(c, id).value;
    assert BucketOk(loc.status, GetBucket(c, loc.status));
  }

  // Removing --------------------------------------------------------------------

  lemma RemoveIsDelete(c: ListCache, id: string)
    requires Shaped(c)
    ensures
      var r := RemoveIssueFromBuckets(c, id);
      Shaped(r) && Contents(r) == Contents(c) - {id}
  {
    Found(c, id);
    var r := RemoveIssueFromBuckets(c, id);
    var found := FindIssueLocation(c, id);
    if found.Some? {
      FoundBucket(c, id);
      var s := found.value.status;
      WithoutKeepsUnique(GetBucket(c, s).issues, id);
      forall t: Status
        ensures BucketOk(t, GetBucket(r, t))
      {
        assert BucketOk(t, GetBucket(c, t));
      }
      Rebuilt(c, r, id, None);
    }
  }

  lemma RemoveTotals(c: ListCache, id: string)
    requires Shaped(c)
    ensures
      var r := RemoveIssueFromBuckets(c, id);
      forall s :: Total(r, s) ==
        if id in Contents(c) && Contents(c)[id].status == s then OneLess(Total(c, s)) else Total(c, s)
  {
    Found(c, id);
    if FindIssueLocation(c, id).Some? {
      FoundBucket(c, id);
    }
  }

  /** Removing an issue that is found changes the bucket it is found in. */
  lemma RemovedBucket(c: ListCache, id: string, t: Status)
    requires FindIssueLocation(c, id).Some?
    ensures
      GetBucket(RemoveIssueFromBuckets(c, id), t) ==
      if t == FindIssueLocation(c, id).value.status
      then Bucket(Without(GetBucket(c, t).issues, id), OneLess(GetBucket(c, t).total))
      else GetBucket(c, t)
  {
  }

  lemma RemoveKeepsCount(c: ListCache, id: string)
    requires Shaped(c) && FindIssueLocation(c, id).Some? && Covered(c)
    ensures Covered(RemoveIssueFromBuckets(c, id))
  {
    FoundBucket(c, id);
    var loc := FindIssueLocation(c, id).value;
    WithoutLength(GetBucket(c, loc.status).issues, loc.issue);
    forall t: Status
      ensures CountsAll(GetBucket(RemoveIssueFromBuckets(c, id), t))
    {
      RemovedBucket(c, id, t);
      assert CountsAll(GetBucket(c, t));
    }
  }

  lemma RemoveKeepsOrder(c: ListCache, id: string)
    requires FindIssueLocation(c, id).Some? && SortedByPosition(c)
    ensures SortedByPosition(RemoveIssueFromBuckets(c, id))
  {
    forall t: Status
      ensures ByPosition(GetBucket(RemoveIssueFromBuckets(c, id), t).issues)
    {
      RemovedBucket(c, id, t);
      WithoutKeepsOrder(GetBucket(c, t).issues, id);
    }
  }

  lemma RemoveKeepsCountAndOrder(c: ListCache, id: string)
    requires Shaped(c)
    ensures Covered(c) ==> Covered(RemoveIssueFromBuckets(c, id))
    ensures SortedByPosition(c) ==> SortedByPosition(RemoveIssueFromBuckets(c, id))
  {
    if FindIssueLocation(c, id).Some? {
      if Covered(c) {
        RemoveKeepsCount(c, id);
      }
      if SortedByPosition(c) {
        RemoveKeepsOrder(c, id);
      }
    }
  }

  // Adding ----------------------------------------------------------------------

  lemma AddIsInsert(c: ListCache, issue: Issue)
    requires Shaped(c) && issue.id !in Contents(c)
    ensures
      var r := AddIssueToBuckets(c, issue);
      && Shaped(r)
      && Contents(r) == Contents(c)[issue.id := issue]
      && (Covered(c) ==> Covered(r))
      && forall s :: Total(r, s) == Total(c, s) + if s == issue.status then 1 else 0
  {
    AddedBuckets(c, issue);
    Found(c, issue.id);
    assert forall i :: Loaded(c, i) ==> i.id != issue.id;
    Rebuilt(c, AddIssueToBuckets(c, issue), issue.id, Some(issue));
  }

  /** Only the bucket of the issue's status changes: the issue comes last. */
  lemma AddedBuckets(c: ListCache, issue: Issue)
    requires Shaped(c) && issue.id !in Contents(c)
    ensures
      var r := AddIssueToBuckets(c, issue);
      forall t: Status ::
        && GetBucket(r, t) ==
           (if t == issue.status then Bucket(GetBucket(c, t).issues + [issue], GetBucket(c, t).total + 1)
            else GetBucket(c, t))
        && BucketOk(t, GetBucket(r, t))
        && (CountsAll(GetBucket(c, t)) ==> CountsAll(GetBucket(r, t)))
  {
    Found(c, issue.id);
    forall t: Status
      ensures BucketOk(t, GetBucket(AddIssueToBuckets(c, issue), t))
    {
      assert BucketOk(t, GetBucket(c, t));
    }
  }

  /** Adding keeps the shape exactly when the id is not loaded under another status. */
  lemma AddKeepsShapeIff(c: ListCache, issue: Issue)
    requires Shaped(c)
    ensures Shaped(AddIssueToBuckets(c, issue)) <==>
            (issue.id in Contents(c) ==> Contents(c)[issue.id].status == issue.status)
  {
    Found(c, issue.id);
    if issue.id !in Contents(c) {
      AddIsInsert(c, issue);
    } else {
      FoundBucket(c, issue.id);
      var copy := Contents(c)[issue.id];
      var r := AddIssueToBuckets(c, issue);
      if copy.status != issue.status {
        assert !exists i <- GetBucket(c, issue.status).issues :: i.id == issue.id by {
          assert BucketOk(issue.status, GetBucket(c, issue.status));
          assert forall i <- GetBucket(c, issue.status).issues :: Loaded(c, i);
        }
        assert Loaded(r, issue) && Loaded(r, copy);
      }
    }
  }

  // Patching --------------------------------------------------------------------

  /** The bucket an issue is restored to holds the merged copy instead of the old one. */
  lemma RestoreKeeps(b: Bucket, was: Issue, merged: Issue, repositioned: bool)
    requires UniqueIds(b.issues) && was in b.issues && merged.id == was.id
    ensures
      var r := Restore(b, was.id, merged, repositioned);
      && UniqueIds(r.issues) && |r.issues| == |b.issues| && r.total == b.total
      && forall i :: i in r.issues <==> i == merged || (i in b.issues && i.id != was.id)
  {
    WithoutKeepsUnique(b.issues, was.id);
    WithoutLength(b.issues, was);
    ReplaceKeeps(b.issues, was.id, merged);
    InsertKeeps(Without(b.issues, was.id), merged);
  }

  lemma RestoreInPlace(c: ListCache, id: string, merged: Issue, repositioned: bool)
    requires Shaped(c) && FindIssueLocation(c, id).Some? && merged.id == id
    requires FindIssueLocation(c, id).value.status == merged.status
    ensures
      var loc := FindIssueLocation(c, id).value;
      var r := Rehome(c, loc, merged, merged.status, repositioned);
      Shaped(r) && Contents(r) == Contents(c)[id := merged]
  {
    FoundBucket(c, id);
    var loc := FindIssueLocation(c, id).value;
    var r := Rehome(c, loc, merged, merged.status, repositioned);
    RestoreKeeps(GetBucket(c, loc.status), loc.issue, merged, repositioned);
    forall t: Status
      ensures BucketOk(t, GetBucket(r, t))
    {
      assert BucketOk(t, GetBucket(c, t));
    }
    Rebuilt(c, r, id, Some(merged));
  }

  /** Inserting at its position an issue that is not loaded. */
  function Placed(c: ListCache, issue: Issue): ListCache {
    var b := GetBucket(c, issue.status);
    SetBucket(c, issue.status, Bucket(InsertByPosition(b.issues, issue), b.total + 1))
  }

  lemma PlacedIsInsert(c: ListCache, issue: Issue)
    requires Shaped(c) && issue.id !in Contents(c)
    ensures Shaped(Placed(c, issue)) && Contents(Placed(c, issue)) == Contents(c)[issue.id := issue]
    ensures Covered(c) ==> Covered(Placed(c, issue))
    ensures SortedByPosition(c) ==> SortedByPosition(Placed(c, issue))
  {
    Found(c, issue.id);
    var r := Placed(c, issue);
    InsertKeeps(GetBucket(c, issue.status).issues, issue);
    forall t: Status
      ensures BucketOk(t, GetBucket(r, t))
      ensures CountsAll(GetBucket(c, t)) ==> CountsAll(GetBucket(r, t))
      ensures ByPosition(GetBucket(c, t).issues) ==> ByPosition(GetBucket(r, t).issues)
    {
      assert BucketOk(t, GetBucket(c, t));
    }
    Rebuilt(c, r, issue.id, Some(issue));
  }

  /** Moving to another bucket is removing and placing. */
  lemma RehomeAcross(c: ListCache, id: string, merged: Issue, repositioned: bool)
    requires FindIssueLocation(c, id).Some? && merged.id == id
    requires FindIssueLocation(c, id).value.status != merged.status
    ensures
      var loc := FindIssueLocation(c, id).value;
      Rehome(c, loc, merged, merged.status, repositioned) == Placed(RemoveIssueFromBuckets(c, id), merged)
  {
    Found(c, id);
    RemovedBucket(c, id, merged.status);
    var loc, bucket := FindIssueLocation(c, id).value, GetBucket(c, FindIssueLocation(c, id).value.status);
    assert RemoveIssueFromBuckets(c, id) ==
           SetBucket(c, loc.status, Bucket(Without(bucket.issues, id), OneLess(bucket.total)));
    PlacedInUntouched(c, RemoveIssueFromBuckets(c, id), merged);
  }

  lemma PlacedInUntouched(c: ListCache, next: ListCache, issue: Issue)
    requires GetBucket(next, issue.status) == GetBucket(c, issue.status)
    ensures
      var b := GetBucket(c, issue.status);
      Placed(next, issue) == SetBucket(next, issue.status, Bucket(InsertByPosition(b.issues, issue), b.total + 1))
  {
  }

  lemma MovedIsUpdate(c: ListCache, id: string, merged: Issue)
    requires Shaped(c) && merged.id == id
    ensures
      var r := Placed(RemoveIssueFromBuckets(c, id), merged);
      Shaped(r) && Contents(r) == Contents(c)[id := merged]
  {
    RemoveIsDelete(c, id);
    PlacedIsInsert(RemoveIssueFromBuckets(c, id), merged);
    DeleteThenInsert(Contents(c), id, merged);
  }

  lemma DeleteThenInsert(m: map<string, Issue>, id: string, i: Issue)
    ensures (m - {id})[id := i] == m[id := i]
  {
  }

  lemma RehomeIsUpdate(c: ListCache, id: string, merged: Issue, repositioned: bool)
    requires Shaped(c) && FindIssueLocation(c, id).Some? && merged.id == id
    ensures
      var loc := FindIssueLocation(c, id).value;
      var r := Rehome(c, loc, merged, merged.status, repositioned);
      Shaped(r) && Contents(r) == Contents(c)[id := merged]
  {
    if FindIssueLocation(c, id).value.status == merged.status {
      RestoreInPlace(c, id, merged, repositioned);
    } else {
      RehomeAcross(c, id, merged, repositioned);
      MovedIsUpdate(c, id, merged);
    }
  }

  /** The patched status is the bucket's, unless the patch names another. */
  lemma PatchIsRehome(c: ListCache, id: string, patch: PartialIssue)
    requires Shaped(c) && FindIssueLocation(c, id).Some? && patch.id.GetOr(id) == id
    ensures
      var loc := FindIssueLocation(c, id).value;
      var merged := Merge(loc.issue, patch);
      && merged.id == id
      && Contents(c)[id] == loc.issue
      && PatchIssueInBuckets(c, id, patch) ==
           Rehome(c, loc, merged, merged.status, merged.position != loc.issue.position)
  {
    FoundBucket(c, id);
  }

  lemma PatchIsUpdate(c: ListCache, id: string, patch: PartialIssue)
    requires Shaped(c) && patch.id.GetOr(id) == id
    ensures
      var r := PatchIssueInBuckets(c, id, patch);
      && Shaped(r)
      && Contents(r) ==
           if id in Contents(c) then Contents(c)[id := Merge(Contents(c)[id], patch)] else Contents(c)
  {
    Found(c, id);
    if id in Contents(c) {
      PatchIsRehome(c, id, patch);
      var loc := FindIssueLocation(c, id).value;
      var merged := Merge(loc.issue, patch);
      RehomeIsUpdate(c, id, merged, merged.position != loc.issue.position);
    }
  }

  lemma RestoreTotals(c: ListCache, id: string, merged: Issue, repositioned: bool)
    requires Shaped(c) && FindIssueLocation(c, id).Some? && merged.id == id
    requires FindIssueLocation(c, id).value.status == merged.status
    ensures
      var r := Rehome(c, FindIssueLocation(c, id).value, merged, merged.status, repositioned);
      (forall s :: Total(r, s) == Total(c, s)) && (Covered(c) ==> Covered(r))
  {
    FoundBucket(c, id);
    var loc := FindIssueLocation(c, id).value;
    var r := Rehome(c, loc, merged, merged.status, repositioned);
    RestoreKeeps(GetBucket(c, loc.status), loc.issue, merged, repositioned);
    forall t: Status
      ensures CountsAll(GetBucket(c, t)) ==> CountsAll(GetBucket(r, t))
    {
    }
  }

  lemma MovedKeepsCountAndOrder(c: ListCache, id: string, merged: Issue)
    requires Shaped(c) && merged.id == id
    ensures Covered(c) ==> Covered(Placed(RemoveIssueFromBuckets(c, id), merged))
    ensures SortedByPosition(c) ==> SortedByPosition(Placed(RemoveIssueFromBuckets(c, id), merged))
  {
    RemoveIsDelete(c, id);
    RemoveKeepsCountAndOrder(c, id);
    var without := RemoveIssueFromBuckets(c, id);
    PlacedIsInsert(without, merged);
  }

  lemma PlacedTotals(c: ListCache, id: string, merged: Issue)
    requires Shaped(c) && FindIssueLocation(c, id).Some?
    requires FindIssueLocation(c, id).value.status != merged.status
    ensures
      var r := Placed(RemoveIssueFromBuckets(c, id), merged);
      forall s :: Total(r, s) ==
        Total(MoveBucketTotal(c, FindIssueLocation(c, id).value.status, merged.status), s)
  {
  }

  lemma RehomeTotals(c: ListCache, id: string, merged: Issue, repositioned: bool)
    requires Shaped(c) && FindIssueLocation(c, id).Some? && merged.id == id
    ensures
      var loc := FindIssueLocation(c, id).value;
      var r := Rehome(c, loc, merged, merged.status, repositioned);
      && (forall s :: Total(r, s) == Total(MoveBucketTotal(c, loc.status, merged.status), s))
      && (Covered(c) ==> Covered(r))
  {
    if FindIssueLocation(c, id).value.status == merged.status {
      RestoreTotals(c, id, merged, repositioned);
    } else {
      RehomeAcross(c, id, merged, repositioned);
      PlacedTotals(c, id, merged);
      MovedKeepsCountAndOrder(c, id, merged);
    }
  }

  /** The patched issue moves its unit of total with it. */
  lemma PatchMovesTotal(c: ListCache, id: string, patch: PartialIssue)
    requires Shaped(c) && patch.id.GetOr(id) == id && id in Contents(c)
    ensures
      var r := PatchIssueInBuckets(c, id, patch);
      var from, to := Contents(c)[id].status, Merge(Contents(c)[id], patch).status;
      forall s :: Total(r, s) == Total(MoveBucketTotal(c, from, to), s)
    ensures Covered(c) ==> Covered(PatchIssueInBuckets(c, id, patch))
  {
    Found(c, id);
    PatchIsRehome(c, id, patch);
    FoundBucket(c, id);
    var loc := FindIssueLocation(c, id).value;
    var merged := Merge(loc.issue, patch);
    RehomeTotals(c, id, merged, merged.position != loc.issue.position);
  }

  lemma {:induction false} SumAfterUpdate(c: ListCache, s: Status, b: Bucket, statuses: seq<Status>)
    requires forall j, k :: 0 <= j < k < |statuses| ==> statuses[j] != statuses[k]
    ensures
      SumOver(SetBucket(c, s, b), statuses)
      == SumOver(c, statuses) + if s in statuses then b.total - Total(c, s) else 0
  {
    if statuses == [] {
    } else {
      SumAfterUpdate(c, s, b, statuses[1..]);
    }
  }

  lemma {:induction false} SumOfEqualTotals(c: ListCache, d: ListCache, statuses: seq<Status>)
    requires forall s :: Total(c, s) == Total(d, s)
    ensures SumOver(c, statuses) == SumOver(d, statuses)
  {
    if statuses == [] {
    } else {
      SumOfEqualTotals(c, d, statuses[1..]);
    }
  }

  /** Moving a unit of total conserves the sum unless the source bucket counts nothing. */
  lemma MoveConservesSumIff(c: ListCache, from: Status, to: Status)
    ensures SumTotals(MoveBucketTotal(c, from, to)) == SumTotals(c) <==> from == to || Total(c, from) > 0
    ensures forall s :: GetBucket(MoveBucketTotal(c, from, to), s).issues == GetBucket(c, s).issues
  {
    EveryStatusIsPaginated();
    if from != to {
      var fromBucket, toBucket := GetBucket(c, from), GetBucket(c, to);
      var b := fromBucket.(total := OneLess(fromBucket.total));
      SumAfterUpdate(c, from, b, PAGINATED_STATUSES);
      SumAfterUpdate(SetBucket(c, from, b), to, toBucket.(total := toBucket.total + 1), PAGINATED_STATUSES);
    }
  }

  lemma PatchConservesSum(c: ListCache, id: string, patch: PartialIssue)
    requires Shaped(c) && Covered(c) && patch.id.GetOr(id) == id
    ensures SumTotals(PatchIssueInBuckets(c, id, patch)) == SumTotals(c)
  {
    Found(c, id);
    if id in Contents(c) {
      PatchMovesTotal(c, id, patch);
      FoundBucket(c, id);
      var from, to := Contents(c)[id].status, Merge(Contents(c)[id], patch).status;
      assert GetBucket(c, from).total >= |GetBucket(c, from).issues| >= 1;
      MoveConservesSumIff(c, from, to);
      SumOfEqualTotals(PatchIssueInBuckets(c, id, patch), MoveBucketTotal(c, from, to), PAGINATED_STATUSES);
    }
  }

  // Order and idempotence -----------------------------------------------------------

  lemma RehomeKeepsOrder(c: ListCache, id: string, merged: Issue)
    requires Shaped(c) && SortedByPosition(c) && FindIssueLocation(c, id).Some? && merged.id == id
    ensures
      var loc := FindIssueLocation(c, id).value;
      SortedByPosition(Rehome(c, loc, merged, merged.status, merged.position != loc.issue.position))
  {
    FoundBucket(c, id);
    var loc := FindIssueLocation(c, id).value;
    if merged.status == loc.status {
      var issues := GetBucket(c, loc.status).issues;
      assert ByPosition(issues);
      if merged.position == loc.issue.position {
        ReplaceKeepsOrder(issues, loc.issue, merged);
      } else {
        WithoutKeepsOrder(issues, id);
        InsertKeeps(Without(issues, id), merged);
      }
      var r := Rehome(c, loc, merged, merged.status, merged.position != loc.issue.position);
      forall t: Status
        ensures ByPosition(GetBucket(r, t).issues)
      {
        assert ByPosition(GetBucket(c, t).issues);
      }
    } else {
      RehomeAcross(c, id, merged, merged.position != loc.issue.position);
      MovedKeepsCountAndOrder(c, id, merged);
    }
  }

  lemma ReplaceKeepsOrder(issues: seq<Issue>, was: Issue, with: Issue)
    requires UniqueIds(issues) && ByPosition(issues) && was in issues
    requires with.position == was.position
    ensures ByPosition(ReplaceById(issues, was.id, with))
  {
    var r := ReplaceById(issues, was.id, with);
    forall k | 0 <= k < |issues|
      ensures r[k].position == issues[k].position
    {
      if issues[k].id == was.id {
        UniqueMembers(issues, issues[k], was);
      }
    }
  }

  /** Position-sorted buckets stay position-sorted, across moves between statuses too. */
  lemma PatchKeepsPositionOrder(c: ListCache, id: string, patch: PartialIssue)
    requires Shaped(c) && SortedByPosition(c) && patch.id.GetOr(id) == id
    ensures SortedByPosition(PatchIssueInBuckets(c, id, patch))
  {
    if FindIssueLocation(c, id).Some? {
      PatchIsRehome(c, id, patch);
      RehomeKeepsOrder(c, id, Merge(FindIssueLocation(c, id).value.issue, patch));
    }
  }

  /** Storing a copy that is already there changes nothing. */
  lemma RehomeSame(c: ListCache, i: Issue)
    requires Shaped(c) && Loaded(c, i)
    ensures FindIssueLocation(c, i.id) == Some(Location(i.status, i))
    ensures Rehome(c, Location(i.status, i), i, i.status, false) == c
  {
    LoadedIsFound(c, i);
    assert BucketOk(i.status, GetBucket(c, i.status));
    ReplaceSame(GetBucket(c, i.status).issues, i);
    RestoreSame(c, i.status, i);
  }

  lemma RestoreSame(c: ListCache, s: Status, i: Issue)
    requires i in GetBucket(c, s).issues && ReplaceById(GetBucket(c, s).issues, i.id, i) == GetBucket(c, s).issues
    ensures Rehome(c, Location(s, i), i, s, false) == c
  {
    assert s in c && Restore(c[s], i.id, i, false) == c[s];
  }

  lemma ReplaceSame(issues: seq<Issue>, i: Issue)
    requires UniqueIds(issues) && i in issues
    ensures ReplaceById(issues, i.id, i) == issues
  {
    forall k | 0 <= k < |issues| && issues[k].id == i.id
      ensures issues[k] == i
    {
      UniqueMembers(issues, issues[k], i);
    }
  }

  /** An optimistic patch followed by the server's echo of it is one patch. */
  lemma PatchIsIdempotent(c: ListCache, id: string, patch: PartialIssue)
    requires Shaped(c) && patch.id.GetOr(id) == id
    ensures
      var r := PatchIssueInBuckets(c, id, patch);
      PatchIssueInBuckets(r, id, patch) == r
  {
    Found(c, id);
    var r := PatchIssueInBuckets(c, id, patch);
    if id in Contents(c) {
      PatchIsUpdate(c, id, patch);
      PatchIsRehome(c, id, patch);
      var merged := Merge(Contents(c)[id], patch);
      LoadedIsFound(r, merged);
      RehomeSame(r, merged);
      SpreadDescribes(None, Contents(c)[id], patch);
      PatchIsRehome(r, id, patch);
    }
  }
}
