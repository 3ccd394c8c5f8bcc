/** Forgetting a deleted issue (packages/core/issues/delete-cache.ts). */
module DeleteCache {
  import opened IssueTypes
  import opened Buckets
  import opened QueryCache
  import opened Coordinator
  import opened ApplyChange

  // What is collected and what is pruned ------------------------------------------------

  /** collectParentId: a missing or empty parent id is skipped. */
  function Truthy(p: Option<string>): set<string> {
    if p.GetOr("") == "" then {} else {p.value}
  }

  function ParentOf(copy: Option<Issue>): set<string> {
    if copy.Some? then Truthy(copy.value.parentId) else {}
  }

  function PageParents(pages: seq<Page>, id: string): set<string> {
    if pages == [] then {} else ParentOf(FindById(pages[0].issues, id)) + PageParents(pages[1..], id)
  }

  /** The parents one entry names for the issue. */
  function EntryParents(k: Key, e: Entry, id: string): set<string> {
    if IsBoard(k, e) then
      var found := FindIssueLocation(e.cache, id);
      if found.Some? then Truthy(found.value.issue.parentId) else {}
    else if IsWindow(k, e) then PageParents(e.pages, id)
    else if k.ChildrenKey? && e.IssueList? then
      var child := FindById(e.issues, id);
      if child.Some? then ParentOf(child) + Truthy(Some(k.parentId)) else {}
    else if k == DetailKey(id) && e.IssueData? then Truthy(e.issue.parentId)
    else {}
  }

  /** All parents any entry names. */
  function ParentsOf(entries: Entries, id: string): set<string> {
    set k, p | k in entries && p in EntryParents(k, entries[k], id) :: p
  }

  function PruneBoard(e: Entry, id: string): Entry {
    if e.Board? then Board(RemoveIssueFromBuckets(e.cache, id)) else e
  }

  function PrunePages(pages: seq<Page>, id: string): (r: seq<Page>)
    ensures |r| == |pages|
  {
    seq(|pages|, k requires 0 <= k < |pages| => Page(Without(pages[k].issues, id), OneLess(pages[k].total)))
  }

  function PruneWindow(e: Entry, id: string): Entry {
    if e.Window? && FindById(PageIssues(e.pages), id).Some? then e.(pages := PrunePages(e.pages, id)) else e
  }

  function PruneChildren(e: Entry, id: string): Entry {
    if e.IssueList? then IssueList(Without(e.issues, id)) else e
  }

  /** The entry under key k once the issue is forgotten. */
  function PrunedEntry(k: Key, e: Entry, id: string, parents: set<string>): Entry {
    if k.BoardKey? || k.MyBoardKey? then PruneBoard(e, id)
    else if k.FlatKey? then PruneWindow(e, id)
    else if k.ChildrenKey? && k.parentId in parents then PruneChildren(e, id)
    else e
  }

  /** The entries that belong to the deleted issue itself. */
  predicate OwnEntry(k: Key, id: string) {
    || k == DetailKey(id)
    || k == ChildrenKey(id)
    || (k.ScopedKey? && k.id == id
        && k.kind in {"timeline", "reactions", "subscribers", "usage", "attachments", "tasks", "labels"})
  }

  function Cleaned(entries: Entries, id: string, parents: set<string>): Entries {
    map k | k in entries && !OwnEntry(k, id) :: PrunedEntry(k, entries[k], id, parents)
  }

  // The imperative form --------------------------------------------------------------------

  function ParentsIn(view: seq<Snapshot>, id: string): set<string> {
    if view == [] then {}
    else
      var last := view[|view| - 1];
      ParentsIn(view[..|view| - 1], id) + EntryParents(last.key, last.entry, id)
  }

  /** One of the collection loops. */
  method CollectFrom(view: seq<Snapshot>, id: string, collected: set<string>) returns (parents: set<string>)
    ensures parents == collected + ParentsIn(view, id)
  {
    parents := collected;
    for n := 0 to |view|
      invariant parents == collected + ParentsIn(view[..n], id)
    {
      assert view[..n + 1][..n] == view[..n] && view[..n + 1][n] == view[n];
      parents := parents + EntryParents(view[n].key, view[n].entry, id);
    }
    assert view[..|view|] == view;
  }

  lemma {:induction false} ParentsInAre(view: seq<Snapshot>, id: string)
    ensures forall p :: p in ParentsIn(view, id) <==> exists s <- view :: p in EntryParents(s.key, s.entry, id)
  {
    if view == [] {
    } else {
      var n := |view| - 1;
      ParentsInAre(view[..n], id);
      assert view == view[..n] + [view[n]];
      assert forall s :: s in view <==> s in view[..n] || s == view[n];
    }
  }

  /** Reading an entry of a board family as buckets throws if it is a grouped response,
      because that has no byStatus. */
  predicate Unreadable(k: Key, e: Entry) {
    (k.BoardKey? || k.MyBoardKey? || k.MyGroupsKey?) && e.Groups?
  }

  ghost predicate ReadsGroups(entries: Entries) {
    exists k <- entries :: Unreadable(k, entries[k])
  }

  method AllReadable(view: seq<Snapshot>) returns (ok: bool)
    ensures ok <==> forall s <- view :: !Unreadable(s.key, s.entry)
  {
    for n := 0 to |view|
      invariant forall s <- view[..n] :: !Unreadable(s.key, s.entry)
    {
      assert view[..n + 1] == view[..n] + [view[n]];
      if Unreadable(view[n].key, view[n].entry) {
        return false;
      }
    }
    assert view[..|view|] == view;
    ok := true;
  }

  /** collectDeletedIssueCacheMetadata; None when it throws. */
  method CollectDeletedIssueCacheMetadata(qc: QueryClient, id: string) returns (collected: Option<set<string>>)
    requires qc.Valid()
    ensures collected == if ReadsGroups(qc.entries) then None else Some(ParentsOf(qc.entries, id))
  {
    var detail := QueriesData(qc.order, qc.entries, (k: Key) => k == DetailKey(id));
    var lists := QueriesData(qc.order, qc.entries, (k: Key) => k.BoardKey?);
    var windows := QueriesData(qc.order, qc.entries, (k: Key) => k.FlatKey?);
    var mine := QueriesData(qc.order, qc.entries, (k: Key) => k.MyBoardKey? || k.MyGroupsKey?);
    var children := QueriesData(qc.order, qc.entries, (k: Key) => k.ChildrenKey?);
    var readable := AllReadable(lists + mine);
    if !readable {
      return None;
    }
    var all := detail + lists + windows + mine + children;
    var parents := CollectFrom(all, id, {});
    ParentsInAre(all, id);
    AllVisited(qc.order, qc.entries, id, all);
    NoneUnreadable(qc.order, qc.entries, lists + mine);
    assert parents == ParentsOf(qc.entries, id);
    collected := Some(parents);
  }

  lemma NoneUnreadable(order: seq<Key>, entries: Entries, view: seq<Snapshot>)
    requires forall k :: k in order <==> k in entries
    requires forall k <- entries | k.BoardKey? || k.MyBoardKey? || k.MyGroupsKey? :: Snapshot(k, entries[k]) in view
    requires forall s <- view :: !Unreadable(s.key, s.entry)
    ensures !ReadsGroups(entries)
  {
    forall k | k in entries
      ensures !Unreadable(k, entries[k])
    {
      if k.BoardKey? || k.MyBoardKey? || k.MyGroupsKey? {
        assert Snapshot(k, entries[k]) in view;
      }
    }
  }

  lemma AllVisited(order: seq<Key>, entries: Entries, id: string, all: seq<Snapshot>)
    requires forall k :: k in order <==> k in entries
    requires forall s <- all :: s.key in entries && entries[s.key] == s.entry
    requires forall k <- entries ::
      k == DetailKey(id) || k.BoardKey? || k.FlatKey? || k.MyBoardKey? || k.MyGroupsKey? || k.ChildrenKey?
      ==> Snapshot(k, entries[k]) in all
    ensures forall p :: p in ParentsOf(entries, id) <==> exists s <- all :: p in EntryParents(s.key, s.entry, id)
  {
    forall p | p in ParentsOf(entries, id)
      ensures exists s <- all :: p in EntryParents(s.key, s.entry, id)
    {
      var k :| k in entries && p in EntryParents(k, entries[k], id);
      assert Snapshot(k, entries[k]) in all;
    }
  }

  /** The entries after pruning the visited ones. */
  function PruneAll(entries: Entries, visited: seq<Snapshot>, id: string, parents: set<string>): Entries {
    if visited == [] then entries
    else
      var last := visited[|visited| - 1];
      var before := PruneAll(entries, visited[..|visited| - 1], id, parents);
      before[last.key := PrunedEntry(last.key, last.entry, id, parents)]
  }

  lemma {:induction false} PruneAllAt(
      entries: Entries, visited: seq<Snapshot>, id: string, parents: set<string>, k: Key)
    requires Sampled(visited, entries)
    ensures PruneAll(entries, visited, id, parents).Keys == entries.Keys
    ensures k in entries ==>
      PruneAll(entries, visited, id, parents)[k] ==
      if Snapshot(k, entries[k]) in visited then PrunedEntry(k, entries[k], id, parents) else entries[k]
  {
    if visited == [] {
    } else {
      var n := |visited| - 1;
      PruneAllAt(entries, visited[..n], id, parents, k);
      assert visited == visited[..n] + [visited[n]];
      assert visited[n] in visited;
    }
  }

  /** One of the pruning loops: every visited entry is rewritten from its current value. */
  method PruneEach(qc: QueryClient, view: seq<Snapshot>, id: string, parents: set<string>)
    requires qc.Valid() && Sampled(view, qc.entries)
    modifies qc`order, qc`entries
    ensures qc.Valid() && qc.order == old(qc.order)
    ensures qc.entries == PruneAll(old(qc.entries), view, id, parents)
  {
    ghost var was := qc.entries;
    for n := 0 to |view|
      invariant qc.Valid() && qc.order == old(qc.order)
      invariant qc.entries == PruneAll(was, view[..n], id, parents)
    {
      assert view[..n + 1][..n] == view[..n] && view[..n + 1][n] == view[n];
      assert view[n] in view;
      PruneAllAt(was, view[..n], id, parents, view[n].key);
      qc.SetQueryData(view[n].key, PrunedEntry(view[n].key, qc.entries[view[n].key], id, parents));
    }
    assert view[..|view|] == view;
  }

  function PruneFamily(k: Key, parents: set<string>): bool {
    k.BoardKey? || k.MyBoardKey? || k.FlatKey? || (k.ChildrenKey? && k.parentId in parents)
  }

  function AllPruned(entries: Entries, id: string, parents: set<string>): Entries {
    map k | k in entries :: PrunedEntry(k, entries[k], id, parents)
  }

  /** The pruning loops. */
  method PruneLists(qc: QueryClient, id: string, parents: set<string>)
    requires qc.Valid()
    modifies qc`order, qc`entries
    ensures qc.Valid() && qc.order == old(qc.order)
    ensures qc.entries == AllPruned(old(qc.entries), id, parents)
  {
    ghost var was := qc.entries;
    var view := QueriesData(qc.order, qc.entries, (k: Key) => PruneFamily(k, parents));
    PruneEach(qc, view, id, parents);
    forall k | k in was
      ensures qc.entries.Keys == was.Keys && qc.entries[k] == PrunedEntry(k, was[k], id, parents)
    {
      PruneAllAt(was, view, id, parents, k);
      assert Snapshot(k, was[k]) in view <==> PruneFamily(k, parents);
    }
    PruneAllAt(was, view, id, parents, InboxKey);
  }

  /** cleanupDeletedIssueCaches with freshly collected parents. */
  method CleanupDeletedIssueCaches(qc: QueryClient, id: string) returns (threw: bool)
    requires qc.Valid()
    modifies qc`order, qc`entries
    ensures qc.Valid() && threw == ReadsGroups(old(qc.entries))
    ensures threw ==> qc.entries == old(qc.entries) && qc.order == old(qc.order)
    ensures !threw ==> qc.entries == Cleaned(old(qc.entries), id, ParentsOf(old(qc.entries), id))
  {
    var collected := CollectDeletedIssueCacheMetadata(qc, id);
    if collected.None? {
      return true;
    }
    PruneLists(qc, id, collected.value);
    qc.RemoveQueries((k: Key) => OwnEntry(k, id));
    threw := false;
  }
}
