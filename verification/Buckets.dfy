/** The status buckets of a board and their paginated totals
    (packages/core/issues/cache-helpers.ts). */
module Buckets {
  import opened IssueTypes

  datatype Bucket = Bucket(issues: seq<Issue>, total: nat)

  type ListCache = map<Status, Bucket>

  const EMPTY_BUCKET: Bucket := Bucket([], 0)

  const PAGINATED_STATUSES: seq<Status> := [Backlog, Todo, InProgress, InReview, Done, Blocked, Cancelled]

  datatype Location = Location(status: Status, issue: Issue)

  function GetBucket(c: ListCache, s: Status): Bucket {
    if s in c then c[s] else EMPTY_BUCKET
  }

  function SetBucket(c: ListCache, s: Status, b: Bucket): (r: ListCache)
    ensures forall t: Status :: GetBucket(r, t) == if t == s then b else GetBucket(c, t)
  {
    c[s := b]
  }

  /** Math.max(0, n - 1) */
  function OneLess(n: nat): nat {
    if n == 0 then 0 else n - 1
  }

  /** Array.find by id. */
  function FindById(issues: seq<Issue>, id: string): (r: Option<Issue>)
    ensures r.Some? ==> r.value in issues && r.value.id == id
    ensures r.None? ==> forall i <- issues :: i.id != id
  {
    if issues == [] then None
    else if issues[0].id == id then Some(issues[0])
    else FindById(issues[1..], id)
  }

  function FindFrom(c: ListCache, id: string, statuses: seq<Status>): Option<Location>
  {
    if statuses == [] then None
    else
      var found := FindById(GetBucket(c, statuses[0]).issues, id);
      if found.Some? then Some(Location(statuses[0], found.value))
      else FindFrom(c, id, statuses[1..])
  }

  function FindIssueLocation(c: ListCache, id: string): Option<Location> {
    FindFrom(c, id, PAGINATED_STATUSES)
  }

  lemma EveryStatusIsPaginated()
    ensures forall s: Status :: s in PAGINATED_STATUSES
  {
    forall s: Status
      ensures s in PAGINATED_STATUSES
    {
      var k := match s
        case Backlog => 0 case Todo => 1 case InProgress => 2 case InReview => 3
        case Done => 4 case Blocked => 5 case Cancelled => 6;
      assert PAGINATED_STATUSES[k] == s;
    }
  }

  function Without(issues: seq<Issue>, id: string): (r: seq<Issue>)
    ensures |r| <= |issues|
    ensures forall i :: i in r <==> i in issues && i.id != id
  {
    if issues == [] then []
    else if issues[0].id == id then Without(issues[1..], id)
    else [issues[0]] + Without(issues[1..], id)
  }

  function ReplaceById(issues: seq<Issue>, id: string, with: Issue): (r: seq<Issue>)
    ensures |r| == |issues|
  {
    seq(|issues|, k requires 0 <= k < |issues| => if issues[k].id == id then with else issues[k])
  }

  /** findIndex of the first issue placed after position p; the length when there is none. */
  function FirstAbove(issues: seq<Issue>, p: real): (k: nat)
    ensures k <= |issues|
    ensures forall j :: 0 <= j < k ==> issues[j].position <= p
    ensures k < |issues| ==> issues[k].position > p
  {
    if issues == [] || issues[0].position > p then 0 else 1 + FirstAbove(issues[1..], p)
  }

  function InsertByPosition(issues: seq<Issue>, issue: Issue): seq<Issue> {
    var k := FirstAbove(issues, issue.position);
    issues[..k] + [issue] + issues[k..]
  }

  function AddIssueToBuckets(c: ListCache, issue: Issue): ListCache {
    var bucket := GetBucket(c, issue.status);
    if exists i <- bucket.issues :: i.id == issue.id then c
    else SetBucket(c, issue.status, Bucket(bucket.issues + [issue], bucket.total + 1))
  }

  function RemoveIssueFromBuckets(c: ListCache, id: string): ListCache {
    var loc := FindIssueLocation(c, id);
    if loc.None? then c
    else
      var bucket := GetBucket(c, loc.value.status);
      SetBucket(c, loc.value.status, Bucket(Without(bucket.issues, id), OneLess(bucket.total)))
  }

  function MoveBucketTotal(c: ListCache, from: Status, to: Status): ListCache {
    if from == to then c
    else
      var fromBucket, toBucket := GetBucket(c, from), GetBucket(c, to);
      var next := SetBucket(c, from, fromBucket.(total := OneLess(fromBucket.total)));
      SetBucket(next, to, toBucket.(total := toBucket.total + 1))
  }

  function DecrementBucketTotal(c: ListCache, s: Status): ListCache {
    var bucket := GetBucket(c, s);
    SetBucket(c, s, bucket.(total := OneLess(bucket.total)))
  }

  /** Stores the merged issue inside the bucket it already is in. */
  function Restore(bucket: Bucket, id: string, merged: Issue, repositioned: bool): Bucket {
    if repositioned then
      bucket.(issues := InsertByPosition(Without(bucket.issues, id), merged))
    else
      bucket.(issues := ReplaceById(bucket.issues, id, merged))
  }

  /** Stores the merged issue: in its bucket, or in the bucket of its next status. */
  function Rehome(c: ListCache, loc: Location, merged: Issue, nextStatus: Status, repositioned: bool): ListCache {
    var id := loc.issue.id;
    var bucket := GetBucket(c, loc.status);
    if nextStatus == loc.status then
      SetBucket(c, loc.status, Restore(bucket, id, merged, repositioned))
    else
      var toBucket := GetBucket(c, nextStatus);
      var next := SetBucket(c, loc.status, Bucket(Without(bucket.issues, id), OneLess(bucket.total)));
      SetBucket(next, nextStatus, Bucket(InsertByPosition(toBucket.issues, merged), toBucket.total + 1))
  }

  function PatchIssueInBuckets(c: ListCache, id: string, patch: PartialIssue): ListCache {
    var found := FindIssueLocation(c, id);
    if found.None? then c
    else
      var loc := found.value;
      Rehome(c, loc, Merge(loc.issue, patch), patch.status.GetOr(loc.status),
             patch.position.Some? && patch.position.value != loc.issue.position)
  }

  // The structure every helper keeps ------------------------------------------

  ghost predicate UniqueIds(issues: seq<Issue>) {
    forall j, k :: 0 <= j < k < |issues| ==> issues[j].id != issues[k].id
  }

  ghost predicate ByPosition(issues: seq<Issue>) {
    forall j, k :: 0 <= j < k < |issues| ==> issues[j].position <= issues[k].position
  }

  /** A bucket holds distinct issues, all of its own status. */
  ghost predicate BucketOk(s: Status, b: Bucket) {
    UniqueIds(b.issues) && forall i <- b.issues :: i.status == s
  }

  /** Issue i is loaded, in the bucket of its status. */
  ghost predicate Loaded(c: ListCache, i: Issue) {
    i in GetBucket(c, i.status).issues
  }

  /** Each id occurs once, in the bucket of its own status. */
  ghost predicate Shaped(c: ListCache) {
    && (forall s: Status :: BucketOk(s, GetBucket(c, s)))
    && (forall i, j :: Loaded(c, i) && Loaded(c, j) && i.id == j.id ==> i == j)
  }

  ghost predicate CountsAll(b: Bucket) {
    b.total >= |b.issues|
  }

  /** No total is below what is loaded. */
  ghost predicate Covered(c: ListCache) {
    forall s: Status :: CountsAll(GetBucket(c, s))
  }

  ghost predicate SortedByPosition(c: ListCache) {
    forall s: Status :: ByPosition(GetBucket(c, s).issues)
  }

  function Total(c: ListCache, s: Status): nat {
    GetBucket(c, s).total
  }

  function SumOver(c: ListCache, statuses: seq<Status>): nat {
    if statuses == [] then 0 else Total(c, statuses[0]) + SumOver(c, statuses[1..])
  }

  function SumTotals(c: ListCache): nat {
    SumOver(c, PAGINATED_STATUSES)
  }

  ghost function IdsFrom(c: ListCache, statuses: seq<Status>): (r: set<string>)
    ensures forall id :: id in r <==> FindFrom(c, id, statuses).Some?
  {
    if statuses == [] then {}
    else
      var issues := GetBucket(c, statuses[0]).issues;
      (set i | i in issues :: i.id) + IdsFrom(c, statuses[1..])
  }

  /** The plain map from id to issue that the buckets stand for. */
  ghost function Contents(c: ListCache): map<string, Issue> {
    map id | id in IdsFrom(c, PAGINATED_STATUSES) :: FindIssueLocation(c, id).value.issue
  }

  // Sequences -------------------------------------------------------------------

  lemma UniqueMembers(issues: seq<Issue>, i: Issue, j: Issue)
    requires UniqueIds(issues) && i in issues && j in issues && i.id == j.id
    ensures i == j
  {
    var a :| 0 <= a < |issues| && issues[a] == i;
    var b :| 0 <= b < |issues| && issues[b] == j;
    assert a == b;
  }

  lemma {:induction false} WithoutKeepsUnique(issues: seq<Issue>, id: string)
    requires UniqueIds(issues)
    ensures UniqueIds(Without(issues, id))
  {
    if issues == [] {
    } else {
      WithoutKeepsUnique(issues[1..], id);
      var rest := Without(issues[1..], id);
      assert forall k :: 0 <= k < |rest| ==> rest[k] in issues[1..];
    }
  }

  lemma {:induction false} WithoutKeepsOrder(issues: seq<Issue>, id: string)
    requires ByPosition(issues)
    ensures ByPosition(Without(issues, id))
  {
    if issues == [] {
    } else {
      WithoutKeepsOrder(issues[1..], id);
      var rest := Without(issues[1..], id);
      assert forall k :: 0 <= k < |rest| ==> rest[k] in issues[1..];
    }
  }

  lemma {:induction false} WithoutAbsent(issues: seq<Issue>, id: string)
    requires forall i <- issues :: i.id != id
    ensures Without(issues, id) == issues
  {
    if issues == [] {
    } else {
      assert issues[0] in issues;
      WithoutAbsent(issues[1..], id);
    }
  }

  lemma {:induction false} WithoutLength(issues: seq<Issue>, i: Issue)
    requires UniqueIds(issues) && i in issues
    ensures |Without(issues, i.id)| == |issues| - 1
  {
    if issues[0].id == i.id {
      forall j | j in issues[1..]
        ensures j.id != i.id
      {
        var k :| 0 <= k < |issues[1..]| && issues[1..][k] == j;
        assert j == issues[k + 1];
      }
      WithoutAbsent(issues[1..], i.id);
    } else {
      WithoutLength(issues[1..], i);
    }
  }

  lemma ReplaceKeeps(issues: seq<Issue>, id: string, with: Issue)
    requires UniqueIds(issues) && with.id == id
    requires exists i <- issues :: i.id == id
    ensures UniqueIds(ReplaceById(issues, id, with))
    ensures forall i :: i in ReplaceById(issues, id, with) <==> i == with || (i in issues && i.id != id)
  {
    var r := ReplaceById(issues, id, with);
    var k :| 0 <= k < |issues| && issues[k].id == id;
    assert r[k] == with;
    forall i | i in issues && i.id != id
      ensures i in r
    {
      var j :| 0 <= j < |issues| && issues[j] == i;
      assert r[j] == i;
    }
  }

  lemma SplicedAt<T>(s: seq<T>, k: nat, x: T, j: nat)
    requires k <= |s| && j <= |s|
    ensures (s[..k] + [x] + s[k..])[j] == if j < k then s[j] else if j == k then x else s[j - 1]
  {
  }

  lemma InsertedAt(issues: seq<Issue>, issue: Issue, j: nat)
    requires j <= |issues|
    ensures
      InsertByPosition(issues, issue)[j] ==
      if j < FirstAbove(issues, issue.position) then issues[j]
      else if j == FirstAbove(issues, issue.position) then issue
      else issues[j - 1]
  {
    SplicedAt(issues, FirstAbove(issues, issue.position), issue, j);
  }

  lemma InsertKeepsUnique(issues: seq<Issue>, issue: Issue)
    requires UniqueIds(issues) && forall i <- issues :: i.id != issue.id
    ensures UniqueIds(InsertByPosition(issues, issue))
  {
    var r := InsertByPosition(issues, issue);
    forall a, b | 0 <= a < b < |r|
      ensures r[a].id != r[b].id
    {
      InsertedAt(issues, issue, a);
      InsertedAt(issues, issue, b);
    }
  }

  lemma InsertKeepsOrder(issues: seq<Issue>, issue: Issue)
    requires ByPosition(issues)
    ensures ByPosition(InsertByPosition(issues, issue))
  {
    var r := InsertByPosition(issues, issue);
    forall a, b | 0 <= a < b < |r|
      ensures r[a].position <= r[b].position
    {
      InsertedAt(issues, issue, a);
      InsertedAt(issues, issue, b);
    }
  }

  lemma InsertMembers(issues: seq<Issue>, issue: Issue)
    ensures forall i :: i in InsertByPosition(issues, issue) <==> i == issue || i in issues
  {
    var k := FirstAbove(issues, issue.position);
    assert issues == issues[..k] + issues[k..];
  }

  lemma InsertKeeps(issues: seq<Issue>, issue: Issue)
    ensures UniqueIds(issues) && (forall i <- issues :: i.id != issue.id) ==> UniqueIds(InsertByPosition(issues, issue))
    ensures ByPosition(issues) ==> ByPosition(InsertByPosition(issues, issue))
    ensures forall i :: i in InsertByPosition(issues, issue) <==> i == issue || i in issues
    ensures |InsertByPosition(issues, issue)| == |issues| + 1
  {
    InsertMembers(issues, issue);
    if UniqueIds(issues) && forall i <- issues :: i.id != issue.id {
      InsertKeepsUnique(issues, issue);
    }
    if ByPosition(issues) {
      InsertKeepsOrder(issues, issue);
    }
  }

  // Lookup ------------------------------------------------------------------------

  lemma {:induction false} FoundFrom(c: ListCache, id: string, statuses: seq<Status>)
    ensures
      var r := FindFrom(c, id, statuses);
      && (r.Some? ==> r.value.issue in GetBucket(c, r.value.status).issues && r.value.issue.id == id)
      && (r.None? ==> forall s <- statuses :: forall i <- GetBucket(c, s).issues :: i.id != id)
  {
    if statuses == [] {
    } else {
      FoundFrom(c, id, statuses[1..]);
    }
  }

  /** findIssueLocation answers for every bucket. */
  lemma Found(c: ListCache, id: string)
    ensures
      var r := FindIssueLocation(c, id);
      && (r.Some? ==> r.value.issue in GetBucket(c, r.value.status).issues && r.value.issue.id == id)
      && (r.None? ==> forall s: Status :: forall i <- GetBucket(c, s).issues :: i.id != id)
      && (id in Contents(c) <==> r.Some?)
      && (r.Some? ==> Contents(c)[id] == r.value.issue)
  {
    FoundFrom(c, id, PAGINATED_STATUSES);
    EveryStatusIsPaginated();
  }

  /** In a shaped cache, being loaded and being found are the same. */
  lemma LoadedIsFound(c: ListCache, i: Issue)
    requires Shaped(c)
    ensures Loaded(c, i) <==> FindIssueLocation(c, i.id) == Some(Location(i.status, i))
    ensures Loaded(c, i) <==> i.id in Contents(c) && Contents(c)[i.id] == i
  {
    Found(c, i.id);
    var loc := FindIssueLocation(c, i.id);
    if loc.Some? {
      assert BucketOk(loc.value.status, GetBucket(c, loc.value.status));
      assert Loaded(c, loc.value.issue);
    }
  }
}
