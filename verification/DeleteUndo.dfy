/** An optimistic deletion and its undoing (packages/core/issues/mutations.ts,
    useDeleteIssue): the issue is pruned at once, and every list is put back if the
    server refuses. */
module DeleteUndo {
  import opened IssueTypes
  import opened QueryCache
  import opened Coordinator
  import opened Rollback
  import opened DeleteCache
  import opened InFlight

  /** What onMutate saves. */
  datatype Saved = Saved(
    lists: seq<Snapshot>,
    myLists: seq<Snapshot>,
    flatLists: seq<Snapshot>,
    detail: Option<Issue>,
    children: seq<Snapshot>)

  /** The lists that are saved, whether or not they show the issue. */
  predicate IsSaved(k: Key, parents: set<string>) {
    || k.BoardKey? || k.MyBoardKey? || k.MyGroupsKey? || k.FlatKey? || k.FlatExportKey?
    || (k.ChildrenKey? && k.parentId in parents)
  }

  function SaveAll(order: seq<Key>, entries: Entries, id: string, parents: set<string>): Saved {
    Saved(
      QueriesData(order, entries, (k: Key) => k.BoardKey?),
      QueriesData(order, entries, (k: Key) => k.MyBoardKey? || k.MyGroupsKey?),
      QueriesData(order, entries, (k: Key) => k.FlatKey? || k.FlatExportKey?),
      DetailOf(entries, id),
      QueriesData(order, entries, (k: Key) => k.ChildrenKey? && k.parentId in parents))
  }

  /** The entries after onMutate. */
  function Pruned(entries: Entries, id: string, parents: set<string>): Entries {
    map k | k in entries && k != DetailKey(id) :: PrunedEntry(k, entries[k], id, parents)
  }

  method OnMutate(qc: QueryClient, id: string) returns (saved: Option<Saved>)
    requires qc.Valid()
    modifies qc`order, qc`entries
    ensures qc.Valid() && (saved.None? <==> ReadsGroups(old(qc.entries)))
    ensures saved.None? ==> qc.entries == old(qc.entries)
    ensures saved.Some? ==>
      var parents := ParentsOf(old(qc.entries), id);
      && saved.value == SaveAll(old(qc.order), old(qc.entries), id, parents)
      && qc.entries == Pruned(old(qc.entries), id, parents)
  {
    var collected := CollectDeletedIssueCacheMetadata(qc, id);
    if collected.None? {
      return None;
    }
    var parents := collected.value;
    saved := Some(SaveAll(qc.order, qc.entries, id, parents));
    PruneLists(qc, id, parents);
    qc.RemoveQueries((k: Key) => k == DetailKey(id));
  }

  function ListsRestored(entries: Entries, saved: Saved): Entries {
    WriteAll(WriteAll(WriteAll(entries, saved.lists), saved.myLists), saved.flatLists)
  }

  function Undone(entries: Entries, id: string, saved: Saved): Entries {
    var lists := ListsRestored(entries, saved);
    var details := if saved.detail.Some? then lists[DetailKey(id) := IssueData(saved.detail.value)] else lists;
    WriteAll(details, saved.children)
  }

  method OnError(qc: QueryClient, id: string, saved: Saved)
    requires qc.Valid()
    modifies qc`order, qc`entries
    ensures qc.Valid() && qc.entries == Undone(old(qc.entries), id, saved)
  {
    RestoreAll(qc, saved.lists);
    RestoreAll(qc, saved.myLists);
    RestoreAll(qc, saved.flatLists);
    if saved.detail.Some? {
      qc.SetQueryData(DetailKey(id), IssueData(saved.detail.value));
    }
    RestoreAll(qc, saved.children);
  }

  // What the undoing gives ---------------------------------------------------------------

  /** The cache has its queries in order, and an issue under its detail key. */
  ghost predicate Typed(order: seq<Key>, entries: Entries, id: string) {
    && Distinct(order) && (forall k :: k in order <==> k in entries)
    && (DetailKey(id) in entries ==> entries[DetailKey(id)].IssueData?)
  }

  lemma SavedLists(order: seq<Key>, was: Entries, id: string, parents: set<string>, k: Key)
    requires Typed(order, was, id)
    ensures
      var s, rest := SaveAll(order, was, id, parents), was - {DetailKey(id)};
      && TrueSnapshots(s.lists, rest) && TrueSnapshots(s.myLists, rest) && TrueSnapshots(s.flatLists, rest)
      && TrueSnapshots(s.children, rest) && TrueSnapshots(s.children, was)
      && (k in was ==>
            (Saves(s.lists, k) || Saves(s.myLists, k) || Saves(s.flatLists, k) || Saves(s.children, k)
             <==> IsSaved(k, parents)))
  {
    if k in was {
      var snapshot := Snapshot(k, was[k]);
      assert snapshot.key == k;
    }
  }

  /** Whatever the cache holds by now, the lists and the detail are put back as they
      were, and the rest stays. */
  lemma UndoneAt(order: seq<Key>, was: Entries, now: Entries, id: string, parents: set<string>, k: Key)
    requires Typed(order, was, id) && now.Keys == was.Keys - {DetailKey(id)}
    ensures
      var back := Undone(now, id, SaveAll(order, was, id, parents));
      && back.Keys == was.Keys
      && (k in was ==> back[k] == if IsSaved(k, parents) || k == DetailKey(id) then was[k] else now[k])
  {
    var s, rest := SaveAll(order, was, id, parents), was - {DetailKey(id)};
    SavedLists(order, was, id, parents, k);
    WriteAllAt(now, s.lists, rest, k);
    WriteAllAt(WriteAll(now, s.lists), s.myLists, rest, k);
    WriteAllAt(WriteAll(WriteAll(now, s.lists), s.myLists), s.flatLists, rest, k);
    var lists := ListsRestored(now, s);
    var details := if s.detail.Some? then lists[DetailKey(id) := IssueData(s.detail.value)] else lists;
    assert details.Keys == was.Keys;
    WriteAllAt(details, s.children, was, k);
  }

  /** A refused deletion leaves every entry as it was. */
  lemma DeletionIsUndone(order: seq<Key>, was: Entries, id: string, parents: set<string>)
    requires Typed(order, was, id)
    ensures Undone(Pruned(was, id, parents), id, SaveAll(order, was, id, parents)) == was
  {
    var back := Undone(Pruned(was, id, parents), id, SaveAll(order, was, id, parents));
    UndoneAt(order, was, Pruned(was, id, parents), id, parents, InboxKey);
    forall k | k in was
      ensures back[k] == was[k]
    {
      UndoneAt(order, was, Pruned(was, id, parents), id, parents, k);
    }
  }

  method FailedDeletion(qc: QueryClient, id: string)
    requires qc.Valid() && (DetailKey(id) in qc.entries ==> qc.entries[DetailKey(id)].IssueData?)
    modifies qc`order, qc`entries
    ensures qc.Valid() && qc.entries == old(qc.entries)
  {
    ghost var order, was := qc.order, qc.entries;
    var saved := OnMutate(qc, id);
    if saved.Some? {
      OnError(qc, id, saved.value);
      DeletionIsUndone(order, was, id, ParentsOf(was, id));
    }
  }

  lemma UnlistedGoesAlike(was: Entries, id: string, parents: set<string>, later: seq<Edit>, k: Key)
    requires k in was && !IsSaved(k, parents) && k != DetailKey(id)
    ensures k in LaterApplied(Pruned(was, id, parents), later)
    ensures LaterApplied(Pruned(was, id, parents), later)[k] == LaterApplied(was, later)[k]
  {
    assert InboxLoaded(Pruned(was, id, parents)) == InboxLoaded(was);
    SameEntryGoesAlike(was, Pruned(was, id, parents), later, k);
  }

  /** If other edits were made meanwhile, the refused deletion gives at a view what they
      alone give exactly where they changed no list and not the issue's detail: every
      list is put back, also one that never showed the issue. */
  lemma LateUndoIff(order: seq<Key>, was: Entries, id: string, parents: set<string>, later: seq<Edit>, k: Key)
    requires Typed(order, was, id)
    ensures
      var now := LaterApplied(Pruned(was, id, parents), later);
      var back := Undone(now, id, SaveAll(order, was, id, parents));
      var without := LaterApplied(was, later);
      && back.Keys == without.Keys == was.Keys
      && (k in was ==>
            (back[k] == without[k] <==> (IsSaved(k, parents) || k == DetailKey(id) ==> without[k] == was[k])))
  {
    UndoneAt(order, was, LaterApplied(Pruned(was, id, parents), later), id, parents, k);
    if k in was && !IsSaved(k, parents) && k != DetailKey(id) {
      UnlistedGoesAlike(was, id, parents, later, k);
    }
  }
}
