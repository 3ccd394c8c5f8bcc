/** After cleanup the deleted issue is gone from every view the cleanup prunes, and
    every other issue keeps its content and its place. */
module DeleteLaws {
  import opened IssueTypes
  import opened Buckets
  import opened BucketLaws
  import opened QueryCache
  import opened Coordinator
  import opened DeleteCache

  predicate HoldsId(c: ListCache, s: Status, id: string) {
    exists i <- GetBucket(c, s).issues :: i.id == id
  }

  lemma RemovedHolds(c: ListCache, id: string, s: Status)
    requires FindIssueLocation(c, id).Some?
    ensures
      HoldsId(RemoveIssueFromBuckets(c, id), s, id)
      <==> s != FindIssueLocation(c, id).value.status && HoldsId(c, s, id)
  {
    Found(c, id);
    RemovedBucket(c, id, s);
  }

  /** Removing finds one location: a copy survives exactly when the id sits in two buckets. */
  lemma RemovalLeavesCopyIff(c: ListCache, id: string)
    ensures
      (exists s: Status :: HoldsId(RemoveIssueFromBuckets(c, id), s, id))
      <==> exists s: Status, t: Status :: s != t && HoldsId(c, s, id) && HoldsId(c, t, id)
  {
    Found(c, id);
    if FindIssueLocation(c, id).Some? {
      assert HoldsId(c, FindIssueLocation(c, id).value.status, id);
      forall s: Status {
        RemovedHolds(c, id, s);
      }
    }
  }

  /** Every bucket loses the deleted issue and nothing else. */
  lemma BoardForgets(c: ListCache, id: string, s: Status)
    requires Shaped(c)
    ensures GetBucket(RemoveIssueFromBuckets(c, id), s).issues == Without(GetBucket(c, s).issues, id)
  {
    Found(c, id);
    if FindIssueLocation(c, id).Some? {
      FoundBucket(c, id);
      if s != FindIssueLocation(c, id).value.status {
        AbsentFrom(c, id, s);
        WithoutAbsent(GetBucket(c, s).issues, id);
      }
    } else {
      WithoutAbsent(GetBucket(c, s).issues, id);
    }
  }

  lemma AbsentFrom(c: ListCache, id: string, s: Status)
    requires Shaped(c) && FindIssueLocation(c, id).Some? && s != FindIssueLocation(c, id).value.status
    ensures forall i <- GetBucket(c, s).issues :: i.id != id
  {
    FoundBucket(c, id);
    assert BucketOk(s, GetBucket(c, s));
    assert forall i <- GetBucket(c, s).issues :: Loaded(c, i);
  }

  lemma {:induction false} WithoutConcat(a: seq<Issue>, b: seq<Issue>, id: string)
    ensures Without(a + b, id) == Without(a, id) + Without(b, id)
  {
    if a == [] {
      assert a + b == b;
    } else {
      assert (a + b)[1..] == a[1..] + b;
      WithoutConcat(a[1..], b, id);
    }
  }

  /** A pruned window shows its old issues without the deleted one, in order. */
  lemma {:induction false} PrunedPageIssues(pages: seq<Page>, id: string)
    ensures PageIssues(PrunePages(pages, id)) == Without(PageIssues(pages), id)
  {
    if pages == [] {
    } else {
      PrunedPageIssues(pages[1..], id);
      assert PrunePages(pages, id)[1..] == PrunePages(pages[1..], id);
      WithoutConcat(pages[0].issues, PageIssues(pages[1..]), id);
    }
  }

  lemma WindowForgets(e: Entry, id: string)
    requires e.Window?
    ensures PruneWindow(e, id).Window?
    ensures PageIssues(PruneWindow(e, id).pages) == Without(PageIssues(e.pages), id)
  {
    PrunedPageIssues(e.pages, id);
    if FindById(PageIssues(e.pages), id).None? {
      WithoutAbsent(PageIssues(e.pages), id);
    }
  }

  /** The server's total of a window is the number of issues it admits. If every page has
      it, every page has it after the cleanup exactly when the window shows the deleted
      issue just if it is one of them (or admits none). */
  lemma WindowTotalsIff(e: Entry, admitted: set<string>, id: string)
    requires e.Window? && e.pages != [] && forall page <- e.pages :: page.total == |admitted|
    ensures PruneWindow(e, id).Window? && |PruneWindow(e, id).pages| == |e.pages|
    ensures
      (forall page <- PruneWindow(e, id).pages :: page.total == |admitted - {id}|)
      <==> admitted == {} || (id in admitted <==> exists i <- PageIssues(e.pages) :: i.id == id)
  {
    var next := PruneWindow(e, id);
    var shown := FindById(PageIssues(e.pages), id).Some?;
    assert |admitted - {id}| == |admitted| - if id in admitted then 1 else 0;
    forall k | 0 <= k < |e.pages|
      ensures next.pages[k].total == if shown then OneLess(|admitted|) else |admitted|
    {
      assert e.pages[k] in e.pages;
    }
    assert next.pages[0] in next.pages;
    assert admitted == {} <==> |admitted| == 0;
  }

  /** Collection finds the parent of every children cache that holds the issue,
      except an empty parent id. */
  lemma CollectionFindsParents(entries: Entries, id: string, p: string)
    requires ChildrenKey(p) in entries && entries[ChildrenKey(p)].IssueList?
    requires exists i <- entries[ChildrenKey(p)].issues :: i.id == id
    ensures p in ParentsOf(entries, id) <==> p != ""
  {
    var k := ChildrenKey(p);
    assert FindById(entries[k].issues, id).Some?;
    if p != "" {
      assert p in EntryParents(k, entries[k], id);
    } else {
      EmptyIsNoParent(entries, id);
    }
  }

  lemma EmptyIsNoParent(entries: Entries, id: string)
    ensures "" !in ParentsOf(entries, id)
  {
    forall k | k in entries
      ensures "" !in EntryParents(k, entries[k], id)
    {
      if IsWindow(k, entries[k]) {
        EmptyIsNoPageParent(entries[k].pages, id);
      }
    }
  }

  lemma {:induction false} EmptyIsNoPageParent(pages: seq<Page>, id: string)
    ensures "" !in PageParents(pages, id)
  {
    if pages == [] {
    } else {
      EmptyIsNoPageParent(pages[1..], id);
    }
  }

  /** A children cache shows its old issues without the deleted one; only the cache
      under the empty parent id is left as it was. */
  lemma ChildrenForget(entries: Entries, id: string, p: string)
    requires ChildrenKey(p) in entries && entries[ChildrenKey(p)].IssueList? && p != id
    ensures
      var k := ChildrenKey(p);
      var after := Cleaned(entries, id, ParentsOf(entries, id));
      && k in after && after[k].IssueList?
      && (p != "" ==> after[k].issues == Without(entries[k].issues, id))
      && (p == "" ==> after[k] == entries[k])
  {
    var issues := entries[ChildrenKey(p)].issues;
    EmptyIsNoParent(entries, id);
    if exists i <- issues :: i.id == id {
      CollectionFindsParents(entries, id, p);
    } else {
      WithoutAbsent(issues, id);
    }
  }

  /** What a reader can still see of an issue: boards, flat windows, children caches
      and its detail. */
  ghost predicate Shows(k: Key, e: Entry, id: string) {
    || (k.BoardKey? && e.Board? && id in Contents(e.cache))
    || (k.MyBoardKey? && e.Board? && id in Contents(e.cache))
    || (IsWindow(k, e) && exists i <- PageIssues(e.pages) :: i.id == id)
    || (k.ChildrenKey? && e.IssueList? && exists i <- e.issues :: i.id == id)
    || k == DetailKey(id)
  }

  /** The main result: after cleanup nothing shows the deleted issue, unless a
      children cache under the empty parent id did. */
  lemma NothingShowsDeleted(entries: Entries, id: string, k: Key)
    requires forall j <- entries :: IsBoard(j, entries[j]) ==> Shaped(entries[j].cache)
    requires k in Cleaned(entries, id, ParentsOf(entries, id))
    ensures
      Shows(k, Cleaned(entries, id, ParentsOf(entries, id))[k], id) <==>
      k == ChildrenKey("") && Shows(k, entries[k], id)
  {
    var e := entries[k];
    if (k.BoardKey? || k.MyBoardKey?) && e.Board? {
      RemoveIsDelete(e.cache, id);
    } else if IsWindow(k, e) {
      WindowForgets(e, id);
    } else if k.ChildrenKey? && e.IssueList? {
      ChildrenForget(entries, id, k.parentId);
    }
  }

  /** Every other issue is shown exactly where it was. */
  lemma OthersStayShown(entries: Entries, id: string, k: Key, other: string)
    requires forall j <- entries :: IsBoard(j, entries[j]) ==> Shaped(entries[j].cache)
    requires other != id && k in entries && !OwnEntry(k, id)
    ensures k in Cleaned(entries, id, ParentsOf(entries, id))
    ensures Shows(k, Cleaned(entries, id, ParentsOf(entries, id))[k], other) <==> Shows(k, entries[k], other)
  {
    var e := entries[k];
    if (k.BoardKey? || k.MyBoardKey?) && e.Board? {
      RemoveIsDelete(e.cache, id);
    } else if IsWindow(k, e) {
      WindowForgets(e, id);
    } else if k.ChildrenKey? && e.IssueList? {
      ChildrenForget(entries, id, k.parentId);
    }
  }
}
