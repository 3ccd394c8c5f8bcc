/** The cached lists of an issue's children: what the handlers of updates, batches,
    announcements, field events, creations and deletions make of them, against the
    issues on the server (packages/core/issues/mutations.ts, ws-updaters.ts). */
module ChildrenLists {
  import opened IssueTypes
  import opened Buckets
  import opened QueryCache
  import opened Coordinator
  import opened CoordinatorLaws
  import opened BatchUpdate
  import opened FieldHandlers
  import opened DeleteCache
  import opened DeleteLaws
  import opened CreateIssue

  predicate ChildOf(i: Issue, q: string) {
    i.parentId == Some(q)
  }

  /** The list holds exactly the children of q, as they are, each once. */
  ghost predicate Family(world: World, q: string, issues: seq<Issue>) {
    && UniqueIds(issues)
    && forall i :: i in issues <==> i.id in world && world[i.id] == i && ChildOf(i, q)
  }

  function ListOf(entries: Entries, q: string): Option<seq<Issue>> {
    var k := ChildrenKey(q);
    if k in entries && entries[k].IssueList? then Some(entries[k].issues) else None
  }

  /** Every cached list is a family. */
  ghost predicate Families(world: World, entries: Entries) {
    Keyed(world) && forall q :: ListOf(entries, q).Some? ==> Family(world, q, ListOf(entries, q).value)
  }

  // Three ways to treat a list -------------------------------------------------------------

  lemma HeldIsChild(world: World, q: string, issues: seq<Issue>, id: string)
    requires Keyed(world) && Family(world, q, issues)
    ensures (exists i <- issues :: i.id == id) <==> id in world && ChildOf(world[id], q)
  {
    if id in world && ChildOf(world[id], q) {
      assert world[id] in issues;
    }
  }

  lemma PatchedMembers(issues: seq<Issue>, id: string, p: PartialIssue, x: Issue)
    requires p.id.GetOr(id) == id && UniqueIds(issues)
    ensures UniqueIds(PatchInPlace(issues, id, p))
    ensures
      x in PatchInPlace(issues, id, p) <==>
      if x.id == id then exists i <- issues :: i.id == id && Merge(i, p) == x else x in issues
  {
    var r := PatchInPlace(issues, id, p);
    if x.id != id && x in issues {
      var k :| 0 <= k < |issues| && issues[k] == x;
      assert r[k] == x;
    }
    if i :| i in issues && i.id == id && Merge(i, p) == x {
      var k :| 0 <= k < |issues| && issues[k] == i;
      assert r[k] == x;
    }
  }

  /** Patched in place, the list is right exactly when the issue stays on its side. */
  lemma PatchedFamilyIff(world: World, q: string, issues: seq<Issue>, id: string, p: PartialIssue)
    requires Keyed(world) && Family(world, q, issues) && id in world && p.id.GetOr(id) == id
    ensures
      var i, j := world[id], Merge(world[id], p);
      Family(world[id := j], q, PatchInPlace(issues, id, p)) <==> (ChildOf(i, q) <==> ChildOf(j, q))
  {
    var i, j := world[id], Merge(world[id], p);
    var r := PatchInPlace(issues, id, p);
    HeldIsChild(world, q, issues, id);
    forall x: Issue
      ensures UniqueIds(r)
      ensures x in r <==> if x.id == id then ChildOf(i, q) && x == j else x in issues
    {
      PatchedMembers(issues, id, p, x);
    }
    assert j in r <==> ChildOf(i, q);
  }

  /** With the issue taken out, exactly when it is no child afterwards. */
  lemma DetachedFamilyIff(world: World, q: string, issues: seq<Issue>, id: string, j: Issue)
    requires Keyed(world) && Family(world, q, issues) && id in world && j.id == id
    ensures Family(world[id := j], q, Without(issues, id)) <==> !ChildOf(j, q)
  {
    WithoutKeepsUnique(issues, id);
    assert j !in Without(issues, id);
  }

  /** Left alone, exactly when the issue has not changed or is no child before or after. */
  lemma LeftFamilyIff(world: World, q: string, issues: seq<Issue>, id: string, j: Issue)
    requires Keyed(world) && Family(world, q, issues) && id in world && j.id == id
    ensures
      Family(world[id := j], q, issues) <==> world[id] == j || (!ChildOf(world[id], q) && !ChildOf(j, q))
  {
    var i := world[id];
    assert i in issues <==> ChildOf(i, q);
    assert j in issues <==> ChildOf(i, q) && i == j;
  }

  // One update by this client ----------------------------------------------------------

  /** The parent as the known copies have it. */
  function KnownParent(detail: Option<Issue>, prevIssue: Option<Issue>): Option<string> {
    if detail.Some? && detail.value.parentId.Some? then detail.value.parentId
    else if prevIssue.Some? then prevIssue.value.parentId
    else None
  }

  /** The first cached list that holds the issue. */
  function HoldingParent(lists: seq<Snapshot>, id: string): Option<string> {
    if lists == [] then None
    else
      var s := lists[0];
      if s.key.ChildrenKey? && s.entry.IssueList? && FindById(s.entry.issues, id).Some? then Some(s.key.parentId)
      else HoldingParent(lists[1..], id)
  }

  function ParentIn(order: seq<Key>, entries: Entries, detail: Option<Issue>, prevIssue: Option<Issue>, id: string)
    : Option<string>
  {
    var known := KnownParent(detail, prevIssue);
    if Truthy(known) != {} then known
    else HoldingParent(QueriesData(order, entries, (k: Key) => k.ChildrenKey?), id)
  }

  /** The detail goes before the previous issue, which goes before the cached lists. */
  lemma DetailGoesFirst(order: seq<Key>, entries: Entries, detail: Option<Issue>, prevIssue: Option<Issue>, id: string,
                        q: string)
    requires q != ""
    ensures detail.Some? && ChildOf(detail.value, q) ==> ParentIn(order, entries, detail, prevIssue, id) == Some(q)
    ensures
      (detail.Some? ==> detail.value.parentId.None?) && prevIssue.Some? && ChildOf(prevIssue.value, q) ==>
      ParentIn(order, entries, detail, prevIssue, id) == Some(q)
  {
  }

  /** The patch owns a parent, and it is another. */
  predicate Detaches(p: PartialIssue, parent: string) {
    p.parentId.Some? && p.parentId.value != Some(parent)
  }

  function UpdatedList(issues: seq<Issue>, id: string, p: PartialIssue, parent: string): seq<Issue> {
    if Detaches(p, parent) then Without(issues, id) else PatchInPlace(issues, id, p)
  }

  function FamilyUpdated(entries: Entries, id: string, p: PartialIssue, parent: Option<string>): Entries {
    if Truthy(parent) == {} || ListOf(entries, parent.value).None? then entries
    else entries[ChildrenKey(parent.value) :=
                   IssueList(UpdatedList(ListOf(entries, parent.value).value, id, p, parent.value))]
  }

  method FindHoldingParent(lists: seq<Snapshot>, id: string) returns (parent: Option<string>)
    ensures parent == HoldingParent(lists, id)
  {
    for n := 0 to |lists|
      invariant HoldingParent(lists, id) == HoldingParent(lists[n..], id)
    {
      var s := lists[n];
      assert lists[n..][1..] == lists[n + 1..];
      if s.key.ChildrenKey? && s.entry.IssueList? && FindById(s.entry.issues, id).Some? {
        return Some(s.key.parentId);
      }
    }
    parent := None;
  }

  /** The part of onMutate of useUpdateIssue that follows applyIssueChange. */
  method UpdateFamily(qc: QueryClient, id: string, p: PartialIssue, detail: Option<Issue>, prevIssue: Option<Issue>)
    returns (parent: Option<string>, prevChildren: Option<seq<Issue>>)
    requires qc.Valid()
    modifies qc`order, qc`entries
    ensures qc.Valid() && parent == ParentIn(old(qc.order), old(qc.entries), detail, prevIssue, id)
    ensures prevChildren == if Truthy(parent) == {} then None else ListOf(old(qc.entries), parent.value)
    ensures qc.entries == FamilyUpdated(old(qc.entries), id, p, parent)
  {
    parent, prevChildren := KnownParent(detail, prevIssue), None;
    if Truthy(parent) == {} {
      parent := FindHoldingParent(QueriesData(qc.order, qc.entries, (k: Key) => k.ChildrenKey?), id);
    }
    if Truthy(parent) != {} {
      prevChildren := ListOf(qc.entries, parent.value);
      if prevChildren.Some? {
        qc.SetQueryData(ChildrenKey(parent.value), IssueList(UpdatedList(prevChildren.value, id, p, parent.value)));
      }
    }
  }

  /** The lists invalidated when the update settles. */
  predicate SettleInvalidates(q: string, p: PartialIssue, parent: Option<string>) {
    q in Truthy(parent) || q in Truthy(p.parentId.GetOr(None))
  }

  /** Only the list of its parent holds an issue. */
  lemma {:induction false} HoldingIsParent(world: World, entries: Entries, lists: seq<Snapshot>, id: string)
    requires Families(world, entries) && forall s <- lists :: s.key in entries && entries[s.key] == s.entry
    ensures
      var parent := HoldingParent(lists, id);
      && (parent.Some? ==> id in world && ChildOf(world[id], parent.value))
      && (parent.None? ==> forall q :: Snapshot(ChildrenKey(q), IssueList(ListOf(entries, q).GetOr([]))) in lists ==>
            !(id in world && ChildOf(world[id], q)))
  {
    if lists == [] {
    } else {
      var s := lists[0];
      HoldingIsParent(world, entries, lists[1..], id);
      if s.key.ChildrenKey? && s.entry.IssueList? {
        assert ListOf(entries, s.key.parentId) == Some(s.entry.issues);
        HeldIsChild(world, s.key.parentId, s.entry.issues, id);
      }
    }
  }

  /** The parent that is found is the issue's own, and it is found if its list is
      cached. */
  lemma ParentIsFound(world: World, order: seq<Key>, entries: Entries, detail: Option<Issue>, prevIssue: Option<Issue>,
                      id: string, q: string)
    requires Families(world, entries) && id in world && forall k :: k in order <==> k in entries
    requires (detail.Some? ==> detail.value == world[id]) && (prevIssue.Some? ==> prevIssue.value == world[id])
    requires q != "" && ListOf(entries, q).Some?
    ensures q in Truthy(ParentIn(order, entries, detail, prevIssue, id)) <==> ChildOf(world[id], q)
  {
    var lists := QueriesData(order, entries, (k: Key) => k.ChildrenKey?);
    HoldingIsParent(world, entries, lists, id);
    assert Snapshot(ChildrenKey(q), entries[ChildrenKey(q)]) in lists;
    assert entries[ChildrenKey(q)] == IssueList(ListOf(entries, q).GetOr([]));
  }

  /** After an update every cached list is right, except that of a new parent, which is
      invalidated when the update settles. */
  lemma UpdateKeepsFamilies(world: World, order: seq<Key>, entries: Entries, detail: Option<Issue>,
                            prevIssue: Option<Issue>, id: string, p: PartialIssue, q: string)
    requires Families(world, entries) && id in world && p.id.GetOr(id) == id && forall k :: k in order <==> k in entries
    requires (detail.Some? ==> detail.value == world[id]) && (prevIssue.Some? ==> prevIssue.value == world[id])
    requires q != "" && ListOf(entries, q).Some?
    ensures
      var i, j := world[id], Merge(world[id], p);
      var parent := ParentIn(order, entries, detail, prevIssue, id);
      var after := ListOf(FamilyUpdated(entries, id, p, parent), q);
      && after.Some?
      && (Family(world[id := j], q, after.value) <==> ChildOf(i, q) || !ChildOf(j, q))
      && (ChildOf(i, q) != ChildOf(j, q) ==> SettleInvalidates(q, p, parent))
  {
    var i, j := world[id], Merge(world[id], p);
    var issues := ListOf(entries, q).value;
    ParentIsFound(world, order, entries, detail, prevIssue, id, q);
    if ChildOf(i, q) {
      PatchedFamilyIff(world, q, issues, id, p);
      DetachedFamilyIff(world, q, issues, id, j);
    } else {
      LeftFamilyIff(world, q, issues, id, j);
    }
  }

  /** onError: the list of the parent is put back. */
  function FamilyRestored(entries: Entries, parent: Option<string>, prevChildren: Option<seq<Issue>>): Entries {
    if Truthy(parent) == {} || prevChildren.None? then entries
    else entries[ChildrenKey(parent.value) := IssueList(prevChildren.value)]
  }

  method RestoreFamily(qc: QueryClient, parent: Option<string>, prevChildren: Option<seq<Issue>>)
    requires qc.Valid()
    modifies qc`order, qc`entries
    ensures qc.Valid() && qc.entries == FamilyRestored(old(qc.entries), parent, prevChildren)
  {
    if Truthy(parent) != {} && prevChildren.Some? {
      qc.SetQueryData(ChildrenKey(parent.value), IssueList(prevChildren.value));
    }
  }

  /** A failed update leaves the lists as they were. */
  method FailedFamilyUpdate(qc: QueryClient, id: string, p: PartialIssue, detail: Option<Issue>,
                            prevIssue: Option<Issue>)
    requires qc.Valid()
    modifies qc`order, qc`entries
    ensures qc.Valid() && qc.entries == old(qc.entries)
  {
    var parent, prevChildren := UpdateFamily(qc, id, p, detail, prevIssue);
    RestoreFamily(qc, parent, prevChildren);
  }

  // An announced change ----------------------------------------------------------------

  function AnnouncedList(entries: Entries, id: string, p: PartialIssue, cached: Option<Issue>): Entries {
    var parent := if cached.Some? then cached.value.parentId else None;
    if Truthy(parent) == {} || Detaches(p, parent.value) || ListOf(entries, parent.value).None? then entries
    else entries[ChildrenKey(parent.value) := IssueList(PatchInPlace(ListOf(entries, parent.value).value, id, p))]
  }

  predicate AnnouncementInvalidates(q: string, p: PartialIssue, cached: Option<Issue>) {
    var parent := if cached.Some? then cached.value.parentId else None;
    && p.parentId.Some? && p.parentId.value != parent
    && (q in Truthy(parent) || q in Truthy(p.parentId.value))
  }

  method AnnounceToFamily(qc: QueryClient, id: string, p: PartialIssue, cached: Option<Issue>)
    returns (invalidated: set<string>)
    requires qc.Valid()
    modifies qc`order, qc`entries
    ensures qc.Valid() && qc.entries == AnnouncedList(old(qc.entries), id, p, cached)
    ensures forall q :: q in invalidated <==> AnnouncementInvalidates(q, p, cached)
  {
    var oldParent := if cached.Some? then cached.value.parentId else None;
    var newParent := p.parentId.GetOr(None);
    var changed := p.parentId.Some? && newParent != oldParent;
    invalidated := {};
    if Truthy(oldParent) != {} {
      if changed {
        invalidated := invalidated + {oldParent.value};
      } else if ListOf(qc.entries, oldParent.value).Some? {
        qc.SetQueryData(ChildrenKey(oldParent.value),
                        IssueList(PatchInPlace(ListOf(qc.entries, oldParent.value).value, id, p)));
      }
    }
    if Truthy(newParent) != {} && changed {
      invalidated := invalidated + {newParent.value};
    }
  }

  /** An announced change leaves every cached list right or invalidated exactly when the
      issue is cached elsewhere, or is no child of the list, or is still one and the
      event says so, or has not changed: the handler does not look for it in the lists
      themselves. */
  lemma AnnouncedFamilyIff(world: World, entries: Entries, id: string, p: PartialIssue, cached: Option<Issue>,
                           q: string)
    requires Families(world, entries) && id in world && p.id.GetOr(id) == id
    requires cached.Some? ==> cached.value == world[id]
    requires q != "" && ListOf(entries, q).Some?
    ensures
      var i, j := world[id], Merge(world[id], p);
      var after := ListOf(AnnouncedList(entries, id, p, cached), q);
      && after.Some?
      && (Family(world[id := j], q, after.value) || AnnouncementInvalidates(q, p, cached)
          <==> cached.Some? || !ChildOf(i, q) || (ChildOf(j, q) && p.parentId.Some?) || i == j)
  {
    var j := Merge(world[id], p);
    PatchedFamilyIff(world, q, ListOf(entries, q).value, id, p);
    LeftFamilyIff(world, q, ListOf(entries, q).value, id, j);
  }

  // A batch ------------------------------------------------------------------------------

  function BatchWorld(world: World, ids: set<string>, p: PartialIssue): World {
    map id | id in world :: if id in ids then Merge(world[id], p) else world[id]
  }

  /** Patched in place, a list is right exactly when all issues of the batch stay on
      their sides. */
  lemma BatchFamilyIff(world: World, q: string, issues: seq<Issue>, ids: set<string>, p: PartialIssue)
    requires Keyed(world) && Family(world, q, issues) && ids <= world.Keys && p.id.None?
    ensures
      Family(BatchWorld(world, ids, p), q, PatchMany(issues, ids, p)) <==>
      forall id <- ids :: ChildOf(world[id], q) <==> ChildOf(Merge(world[id], p), q)
  {
    var r, next := PatchMany(issues, ids, p), BatchWorld(world, ids, p);
    forall x: Issue
      ensures x in r <==> x.id in next && next[x.id] == x && ChildOf(world[x.id], q)
    {
      ManyMembers(world, q, issues, ids, p, x);
    }
    if Family(next, q, r) {
      forall id | id in ids
        ensures ChildOf(world[id], q) <==> ChildOf(Merge(world[id], p), q)
      {
        assert next[id] in r <==> ChildOf(next[id], q);
      }
    }
  }

  lemma ManyMembers(world: World, q: string, issues: seq<Issue>, ids: set<string>, p: PartialIssue, x: Issue)
    requires Keyed(world) && Family(world, q, issues) && p.id.None?
    ensures
      var next := BatchWorld(world, ids, p);
      x in PatchMany(issues, ids, p) <==> x.id in next && next[x.id] == x && ChildOf(world[x.id], q)
  {
    var r, next := PatchMany(issues, ids, p), BatchWorld(world, ids, p);
    if x in r {
      var k :| 0 <= k < |r| && r[k] == x;
      assert issues[k] in issues;
    }
    if x.id in next && next[x.id] == x && ChildOf(world[x.id], q) {
      assert world[x.id] in issues;
      var k :| 0 <= k < |issues| && issues[k] == world[x.id];
      assert r[k] == x;
    }
  }

  /** A batch leaves a list right, or invalidated when it settles, except that of a new
      parent none of whose children was in the batch. */
  lemma BatchKeepsFamiliesIff(world: World, entries: Entries, ids: set<string>, p: PartialIssue, q: string)
    requires Families(world, entries) && ids <= world.Keys && p.id.None? && ListOf(entries, q).Some?
    ensures
      var issues := ListOf(entries, q).value;
      var after := ListOf(ChildrenPatched(entries, ids, p), q);
      && after.Some?
      && (Family(BatchWorld(world, ids, p), q, after.value) || HasAny(issues, ids)
          <==> p.parentId != Some(Some(q)) || ids == {} || exists id <- ids :: ChildOf(world[id], q))
  {
    var issues := ListOf(entries, q).value;
    BatchFamilyIff(world, q, issues, ids, p);
    forall id | id in ids
      ensures (exists i <- issues :: i.id == id) <==> ChildOf(world[id], q)
    {
      HeldIsChild(world, q, issues, id);
    }
    if !HasAny(issues, ids) {
      assert PatchMany(issues, ids, p) == issues by {
        forall k | 0 <= k < |issues|
          ensures issues[k].id !in ids
        {
          assert issues[k] in issues;
        }
      }
    }
  }

  // Fields, creations and deletions ---------------------------------------------------------

  /** A property or label event keeps every list right, and invalidates it for the update
      time that may have moved along. */
  lemma FieldKeepsFamilies(world: World, entries: Entries, id: string, f: Field, q: string)
    requires Families(world, entries) && id in world && ListOf(entries, q).Some?
    ensures
      var after := ListOf(Handled(entries, id, FieldPatch(f)), q);
      after.Some? && Family(world[id := Merge(world[id], FieldPatch(f))], q, after.value)
    ensures Invalidated(ChildrenKey(q), f)
  {
    PatchedFamilyIff(world, q, ListOf(entries, q).value, id, FieldPatch(f));
  }

  /** A creation leaves every list right or invalidated, except one under the empty id. */
  lemma CreationKeepsFamilies(world: World, entries: Entries, issue: Issue, own: bool, q: string)
    requires Families(world, entries) && ListOf(entries, q).Some?
    requires issue.id in world ==> world[issue.id] == issue
    ensures
      var after := ListOf(Created(entries, issue), q);
      && after.Some?
      && (Family(world[issue.id := issue], q, after.value)
          || CreationInvalidates(ChildrenKey(q), issue, own)
          <==> issue.id in world || !ChildOf(issue, q) || q != "")
  {
    var issues := ListOf(entries, q).value;
    assert issue in issues <==> issue.id in world && ChildOf(issue, q);
    if issue.id in world {
      assert world[issue.id := issue] == world;
    }
  }

  /** A deletion leaves every list right that it does not drop, except one under the
      empty id that held the issue. */
  lemma DeletionKeepsFamilies(world: World, entries: Entries, id: string, q: string)
    requires Families(world, entries) && ListOf(entries, q).Some? && q != id
    ensures
      var after := ListOf(Cleaned(entries, id, ParentsOf(entries, id)), q);
      && after.Some?
      && (Family(world - {id}, q, after.value) <==> q != "" || !(id in world && ChildOf(world[id], q)))
  {
    var issues := ListOf(entries, q).value;
    ChildrenForget(entries, id, q);
    WithoutKeepsUnique(issues, id);
    HeldIsChild(world, q, issues, id);
    if id in world && ChildOf(world[id], q) {
      assert world[id] in issues;
    }
  }
}
