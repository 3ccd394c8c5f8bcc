/** applyIssueChange and rollbackIssueChange over the query client
    (packages/core/issues/cache-coordinator.ts): the loops that rewrite every
    view, and the proof that together they compute Applied and its undoing. */
module ApplyChange {
  import opened IssueTypes
  import opened Buckets
  import opened QueryCache
  import opened Coordinator

  datatype Change = Change(
    prevLists: seq<Snapshot>,
    prevFlatLists: seq<Snapshot>,
    prevTableRows: seq<Snapshot>,
    prevDetail: Option<Issue>,
    prevInboxList: Option<seq<InboxItem>>,
    staleKeys: seq<Key>,
    prevIssue: Option<Issue>)

  function BoardEntries(order: seq<Key>, entries: Entries): seq<Snapshot> {
    QueriesData(order, entries, (k: Key) => k.BoardKey?)
    + QueriesData(order, entries, (k: Key) => k.MyBoardKey? || k.MyGroupsKey?)
  }

  function WindowEntries(order: seq<Key>, entries: Entries): seq<Snapshot> {
    QueriesData(order, entries, (k: Key) => k.FlatKey?)
  }

  function TableEntries(order: seq<Key>, entries: Entries): seq<Snapshot> {
    QueriesData(order, entries, (k: Key) => k.TableKey?)
  }

  function CopyIn(k: Key, e: Entry, id: string): Option<Issue> {
    if IsBoard(k, e) then
      var found := FindIssueLocation(e.cache, id);
      if found.Some? then Some(found.value.issue) else None
    else if IsWindow(k, e) then LastById(PageIssues(e.pages), id)
    else if IsTable(k, e) then LastById(RowIssues(e.rows), id)
    else None
  }

  /** The entries after visiting a view, one visited entry after another. */
  function EditAll(entries: Entries, visited: seq<Snapshot>, ed: Edit): Entries {
    if visited == [] then entries
    else
      var last := visited[|visited| - 1];
      EditAll(entries, visited[..|visited| - 1], ed)[last.key := PatchedEntry(last.key, last.entry, ed, true)]
  }

  /** The visited entries that the edit rewrites. */
  function SnapsOf(visited: seq<Snapshot>, ed: Edit): seq<Snapshot> {
    if visited == [] then []
    else
      var last := visited[|visited| - 1];
      SnapsOf(visited[..|visited| - 1], ed) + if Snapshotted(last.key, last.entry, ed) then [last] else []
  }

  /** The keys of the visited entries that the edit reports stale. */
  function StaleOf(visited: seq<Snapshot>, ed: Edit): seq<Key> {
    if visited == [] then []
    else
      var last := visited[|visited| - 1];
      StaleOf(visited[..|visited| - 1], ed) + if StaleEntry(last.key, last.entry, ed) then [last.key] else []
  }

  /** prevIssue after visiting a view. */
  function FirstCopyOf(prev: Option<Issue>, visited: seq<Snapshot>, id: string): Option<Issue> {
    if visited == [] then prev
    else
      var last := visited[|visited| - 1];
      Or(FirstCopyOf(prev, visited[..|visited| - 1], id), CopyIn(last.key, last.entry, id))
  }

  /** One more visited entry. */
  lemma OneMore(entries: Entries, view: seq<Snapshot>, n: nat, ed: Edit, prev: Option<Issue>)
    requires n < |view|
    ensures
      var s := view[n];
      && EditAll(entries, view[..n + 1], ed) ==
           EditAll(entries, view[..n], ed)[s.key := PatchedEntry(s.key, s.entry, ed, true)]
      && SnapsOf(view[..n + 1], ed) ==
           SnapsOf(view[..n], ed) + (if Snapshotted(s.key, s.entry, ed) then [s] else [])
      && StaleOf(view[..n + 1], ed) ==
           StaleOf(view[..n], ed) + (if StaleEntry(s.key, s.entry, ed) then [s.key] else [])
      && FirstCopyOf(prev, view[..n + 1], ed.id) ==
           Or(FirstCopyOf(prev, view[..n], ed.id), CopyIn(s.key, s.entry, ed.id))
  {
    assert view[..n + 1][..n] == view[..n];
    assert view[..n + 1] != [] && view[..n + 1][n] == view[n];
  }

  /** Snapshots of distinct keys, all taken from the entries. */
  ghost predicate Sampled(visited: seq<Snapshot>, entries: Entries) {
    && (forall s <- visited :: s.key in entries && entries[s.key] == s.entry)
    && (forall j, k :: 0 <= j < k < |visited| ==> visited[j].key != visited[k].key)
  }

  /** Visiting a view edits the visited entries and leaves the others alone. */
  lemma {:induction false} EditAllAt(entries: Entries, visited: seq<Snapshot>, ed: Edit, k: Key)
    requires Sampled(visited, entries)
    ensures EditAll(entries, visited, ed).Keys == entries.Keys
    ensures k in entries ==>
      EditAll(entries, visited, ed)[k] ==
      if Snapshot(k, entries[k]) in visited then PatchedEntry(k, entries[k], ed, true) else entries[k]
  {
    if visited == [] {
    } else {
      var n := |visited| - 1;
      EditAllAt(entries, visited[..n], ed, k);
      assert visited == visited[..n] + [visited[n]];
      assert visited[n] in visited;
    }
  }

  lemma {:induction false} SnapsAndStaleOf(visited: seq<Snapshot>, ed: Edit)
    ensures forall s :: s in SnapsOf(visited, ed) <==> s in visited && Snapshotted(s.key, s.entry, ed)
    ensures forall k :: k in StaleOf(visited, ed) <==> exists s <- visited :: s.key == k && StaleEntry(k, s.entry, ed)
  {
    if visited == [] {
    } else {
      var n := |visited| - 1;
      SnapsAndStaleOf(visited[..n], ed);
      assert visited == visited[..n] + [visited[n]];
      assert forall s :: s in visited <==> s in visited[..n] || s == visited[n];
    }
  }

  /** The entry a loop is about to visit is still as it was sampled. */
  lemma StillThere(entries: Entries, view: seq<Snapshot>, n: nat, ed: Edit)
    requires n < |view| && Sampled(view, entries)
    ensures view[n].key in EditAll(entries, view[..n], ed)
    ensures EditAll(entries, view[..n], ed)[view[n].key] == view[n].entry
  {
    assert view[n] in view;
    EditAllAt(entries, view[..n], ed, view[n].key);
  }

  lemma {:induction false} NoCopyNoPatch(pages: seq<Page>, id: string, p: PartialIssue)
    requires LastById(PageIssues(pages), id).None?
    ensures PatchPages(pages, id, p) == pages
  {
    if pages == [] {
    } else {
      var first, rest := pages[0].issues, PageIssues(pages[1..]);
      assert forall i <- first :: i in PageIssues(pages);
      assert forall i <- rest :: i in PageIssues(pages);
      assert LastById(rest, id).None?;
      NoCopyNoPatch(pages[1..], id, p);
      assert PatchInPlace(first, id, p) == first;
      assert pages == [pages[0]] + pages[1..];
      assert PatchPages(pages, id, p) == [pages[0]] + PatchPages(pages[1..], id, p);
    }
  }

  lemma NoRowNoPatch(rows: seq<Row>, id: string, p: PartialIssue)
    requires LastById(RowIssues(rows), id).None?
    ensures PatchRows(rows, id, p) == rows
  {
    forall k | 0 <= k < |rows|
      ensures rows[k].issue.id != id
    {
      assert RowIssues(rows)[k] in RowIssues(rows);
    }
  }

  /** The body of the loop over bucketed lists. */
  method EditBoard(qc: QueryClient, s: Snapshot, ed: Edit) returns (found: Option<Issue>, wrote: bool, stale: bool)
    requires qc.Valid() && s.key in qc.entries && qc.entries[s.key] == s.entry
    requires s.key.BoardKey? || s.key.MyBoardKey? || s.key.MyGroupsKey?
    modifies qc`order, qc`entries
    ensures qc.Valid() && qc.order == old(qc.order)
    ensures qc.entries == old(qc.entries)[s.key := PatchedEntry(s.key, s.entry, ed, true)]
    ensures wrote == Snapshotted(s.key, s.entry, ed) && stale == StaleEntry(s.key, s.entry, ed)
    ensures found == CopyIn(s.key, s.entry, ed.id)
  {
    found, wrote, stale := None, false, false;
    if s.entry.Board? {
      var loc := FindIssueLocation(s.entry.cache, ed.id);
      if loc.Some? {
        found := Some(loc.value.issue);
      }
      var step := BoardStep(s.key, s.entry.cache, ed);
      if step.wrote {
        qc.SetQueryData(s.key, Board(step.next));
      }
      wrote, stale := step.wrote, step.stale;
    }
  }

  method EditBoards(qc: QueryClient, ed: Edit)
    returns (prevLists: seq<Snapshot>, stale: seq<Key>, prevIssue: Option<Issue>)
    requires qc.Valid()
    modifies qc`order, qc`entries
    ensures qc.Valid() && qc.order == old(qc.order)
    ensures
      var view := BoardEntries(old(qc.order), old(qc.entries));
      && qc.entries == EditAll(old(qc.entries), view, ed)
      && prevLists == SnapsOf(view, ed) && stale == StaleOf(view, ed)
      && prevIssue == FirstCopyOf(ed.base, view, ed.id)
  {
    ghost var was := qc.entries;
    var boards := BoardEntries(qc.order, qc.entries);
    assert Sampled(boards, was);
    prevLists, stale, prevIssue := [], [], ed.base;
    for n := 0 to |boards|
      invariant qc.Valid() && qc.order == old(qc.order)
      invariant qc.entries == EditAll(was, boards[..n], ed)
      invariant prevLists == SnapsOf(boards[..n], ed) && stale == StaleOf(boards[..n], ed)
      invariant prevIssue == FirstCopyOf(ed.base, boards[..n], ed.id)
    {
      StillThere(was, boards, n, ed);
      OneMore(was, boards, n, ed, ed.base);
      var found, wrote, isStale := EditBoard(qc, boards[n], ed);
      prevIssue := Or(prevIssue, found);
      if wrote {
        prevLists := prevLists + [boards[n]];
      }
      if isStale {
        stale := stale + [boards[n].key];
      }
    }
    assert boards[..|boards|] == boards;
  }

  /** The body of the loop over flat windows. */
  method EditWindow(qc: QueryClient, s: Snapshot, ed: Edit) returns (found: Option<Issue>, stale: bool)
    requires qc.Valid() && s.key in qc.entries && qc.entries[s.key] == s.entry && s.key.FlatKey?
    modifies qc`order, qc`entries
    ensures qc.Valid() && qc.order == old(qc.order)
    ensures qc.entries == old(qc.entries)[s.key := PatchedEntry(s.key, s.entry, ed, true)]
    ensures found == CopyIn(s.key, s.entry, ed.id) && stale == StaleEntry(s.key, s.entry, ed)
    ensures found.Some? == Snapshotted(s.key, s.entry, ed)
  {
    found, stale := None, false;
    if s.entry.Window? {
      found := LastById(PageIssues(s.entry.pages), ed.id);
      if found.Some? {
        qc.SetQueryData(s.key, s.entry.(pages := PatchPages(s.entry.pages, ed.id, ed.patch)));
      } else {
        NoCopyNoPatch(s.entry.pages, ed.id, ed.patch);
      }
      stale := FlatWindowNeedsReconcile(s.key, ed.patch, Or(found, ed.base), ed.changed);
    }
  }

  method EditWindows(qc: QueryClient, ed: Edit, prev: Option<Issue>)
    returns (prevFlatLists: seq<Snapshot>, stale: seq<Key>, prevIssue: Option<Issue>)
    requires qc.Valid()
    modifies qc`order, qc`entries
    ensures qc.Valid() && qc.order == old(qc.order)
    ensures
      var view := WindowEntries(old(qc.order), old(qc.entries));
      && qc.entries == EditAll(old(qc.entries), view, ed)
      && prevFlatLists == SnapsOf(view, ed) && stale == StaleOf(view, ed)
      && prevIssue == FirstCopyOf(prev, view, ed.id)
  {
    ghost var was := qc.entries;
    var windows := WindowEntries(qc.order, qc.entries);
    assert Sampled(windows, was);
    prevFlatLists, stale, prevIssue := [], [], prev;
    for n := 0 to |windows|
      invariant qc.Valid() && qc.order == old(qc.order)
      invariant qc.entries == EditAll(was, windows[..n], ed)
      invariant prevFlatLists == SnapsOf(windows[..n], ed) && stale == StaleOf(windows[..n], ed)
      invariant prevIssue == FirstCopyOf(prev, windows[..n], ed.id)
    {
      StillThere(was, windows, n, ed);
      OneMore(was, windows, n, ed, prev);
      var found, isStale := EditWindow(qc, windows[n], ed);
      prevIssue := Or(prevIssue, found);
      if found.Some? {
        prevFlatLists := prevFlatLists + [windows[n]];
      }
      if isStale {
        stale := stale + [windows[n].key];
      }
    }
    assert windows[..|windows|] == windows;
  }

  /** The body of the loop over table pages. */
  method EditTable(qc: QueryClient, s: Snapshot, ed: Edit) returns (found: Option<Issue>)
    requires qc.Valid() && s.key in qc.entries && qc.entries[s.key] == s.entry && s.key.TableKey?
    modifies qc`order, qc`entries
    ensures qc.Valid() && qc.order == old(qc.order)
    ensures qc.entries == old(qc.entries)[s.key := PatchedEntry(s.key, s.entry, ed, true)]
    ensures found == CopyIn(s.key, s.entry, ed.id) && found.Some? == Snapshotted(s.key, s.entry, ed)
  {
    found := None;
    if s.entry.Table? {
      found := LastById(RowIssues(s.entry.rows), ed.id);
      if found.Some? {
        qc.SetQueryData(s.key, s.entry.(rows := PatchRows(s.entry.rows, ed.id, ed.patch)));
      } else {
        NoRowNoPatch(s.entry.rows, ed.id, ed.patch);
      }
    }
  }

  method EditTables(qc: QueryClient, ed: Edit, prev: Option<Issue>)
    returns (prevTableRows: seq<Snapshot>, prevIssue: Option<Issue>)
    requires qc.Valid()
    modifies qc`order, qc`entries
    ensures qc.Valid() && qc.order == old(qc.order)
    ensures
      var view := TableEntries(old(qc.order), old(qc.entries));
      && qc.entries == EditAll(old(qc.entries), view, ed)
      && prevTableRows == SnapsOf(view, ed) && prevIssue == FirstCopyOf(prev, view, ed.id)
  {
    ghost var was := qc.entries;
    var tables := TableEntries(qc.order, qc.entries);
    assert Sampled(tables, was);
    prevTableRows, prevIssue := [], prev;
    for n := 0 to |tables|
      invariant qc.Valid() && qc.order == old(qc.order)
      invariant qc.entries == EditAll(was, tables[..n], ed)
      invariant prevTableRows == SnapsOf(tables[..n], ed) && prevIssue == FirstCopyOf(prev, tables[..n], ed.id)
    {
      StillThere(was, tables, n, ed);
      OneMore(was, tables, n, ed, prev);
      var found := EditTable(qc, tables[n], ed);
      prevIssue := Or(prevIssue, found);
      if found.Some? {
        prevTableRows := prevTableRows + [tables[n]];
      }
    }
    assert tables[..|tables|] == tables;
  }

  // Composing the loops ------------------------------------------------------------

  predicate InLoopedView(k: Key) {
    k.BoardKey? || k.MyBoardKey? || k.MyGroupsKey? || k.FlatKey? || k.TableKey?
  }

  /** The views a loop visits are the entries of its key family. */
  lemma VisitedIff(order: seq<Key>, entries: Entries, k: Key)
    requires k in entries && forall j :: j in order <==> j in entries
    ensures Snapshot(k, entries[k]) in BoardEntries(order, entries) <==> k.BoardKey? || k.MyBoardKey? || k.MyGroupsKey?
    ensures Snapshot(k, entries[k]) in WindowEntries(order, entries) <==> k.FlatKey?
    ensures Snapshot(k, entries[k]) in TableEntries(order, entries) <==> k.TableKey?
  {
  }

  lemma ViewsAreSampled(order: seq<Key>, entries: Entries)
    requires Distinct(order)
    ensures Sampled(BoardEntries(order, entries), entries)
    ensures Sampled(WindowEntries(order, entries), entries)
    ensures Sampled(TableEntries(order, entries), entries)
  {
  }

  function ViewsEdited(entries: Entries, ed: Edit): Entries {
    map k | k in entries :: if InLoopedView(k) then PatchedEntry(k, entries[k], ed, true) else entries[k]
  }

  ghost predicate Loops(order: seq<Key>, was: Entries, e1: Entries, e2: Entries, e3: Entries, ed: Edit) {
    && e1 == EditAll(was, BoardEntries(order, was), ed)
    && e2 == EditAll(e1, WindowEntries(order, e1), ed)
    && e3 == EditAll(e2, TableEntries(order, e2), ed)
  }

  /** The loops have treated key k as they should. */
  ghost predicate LoopedAt(was: Entries, e1: Entries, e2: Entries, e3: Entries, ed: Edit, k: Key) {
    && e1.Keys == e2.Keys == e3.Keys == was.Keys
    && (k in was ==>
          && e3[k] == ViewsEdited(was, ed)[k]
          && (k.FlatKey? ==> e1[k] == was[k])
          && (k.TableKey? ==> e2[k] == was[k]))
  }

  lemma LoopsAt(order: seq<Key>, was: Entries, e1: Entries, e2: Entries, e3: Entries, ed: Edit, k: Key)
    requires Distinct(order) && forall j :: j in order <==> j in was
    requires Loops(order, was, e1, e2, e3, ed)
    ensures LoopedAt(was, e1, e2, e3, ed, k)
  {
    ViewsAreSampled(order, was);
    EditAllAt(was, BoardEntries(order, was), ed, k);
    ViewsAreSampled(order, e1);
    EditAllAt(e1, WindowEntries(order, e1), ed, k);
    ViewsAreSampled(order, e2);
    EditAllAt(e2, TableEntries(order, e2), ed, k);
    if k in was {
      VisitedIff(order, was, k);
      VisitedIff(order, e1, k);
      VisitedIff(order, e2, k);
    }
  }

  lemma LoopedEverywhere(was: Entries, e1: Entries, e2: Entries, e3: Entries, ed: Edit)
    requires forall k :: LoopedAt(was, e1, e2, e3, ed, k)
    ensures e1.Keys == e2.Keys == was.Keys && e3 == ViewsEdited(was, ed)
    ensures forall k <- was :: (k.FlatKey? ==> e1[k] == was[k]) && (k.TableKey? ==> e2[k] == was[k])
  {
    assert LoopedAt(was, e1, e2, e3, ed, InboxKey);
    forall k | k in was
      ensures e3[k] == ViewsEdited(was, ed)[k]
      ensures (k.FlatKey? ==> e1[k] == was[k]) && (k.TableKey? ==> e2[k] == was[k])
    {
      assert LoopedAt(was, e1, e2, e3, ed, k);
    }
  }

  /** The three loops one after another edit every looped view once. */
  lemma ThreeLoops(order: seq<Key>, was: Entries, e1: Entries, e2: Entries, e3: Entries, ed: Edit)
    requires Distinct(order) && forall k :: k in order <==> k in was
    requires Loops(order, was, e1, e2, e3, ed)
    ensures e3 == ViewsEdited(was, ed)
    ensures WindowEntries(order, e1) == WindowEntries(order, was)
    ensures TableEntries(order, e2) == TableEntries(order, was)
  {
    forall k: Key
      ensures LoopedAt(was, e1, e2, e3, ed, k)
    {
      LoopsAt(order, was, e1, e2, e3, ed, k);
    }
    LoopedEverywhere(was, e1, e2, e3, ed);
    QueriesAgree(order, was, e1, (k: Key) => k.FlatKey?);
    QueriesAgree(order, was, e2, (k: Key) => k.TableKey?);
  }

  lemma {:induction false} QueriesAgree(order: seq<Key>, e1: Entries, e2: Entries, family: Key -> bool)
    requires e1.Keys == e2.Keys && forall k <- e1 | family(k) :: e1[k] == e2[k]
    ensures QueriesData(order, e1, family) == QueriesData(order, e2, family)
  {
    if order == [] {
    } else {
      QueriesAgree(order[1..], e1, e2, family);
    }
  }

  function InboxEntry(e: Entry, id: string, status: Status): Entry {
    if e.Inbox? then Inbox(InboxStatus(e.items, id, status)) else e
  }

  function InboxEdited(entries: Entries, id: string, status: Status): Entries {
    map k | k in entries ::
      if k.InboxKey? || k.ArchivedInboxKey? then InboxEntry(entries[k], id, status) else entries[k]
  }

  method PatchInboxList(qc: QueryClient, key: Key, id: string, status: Status)
    requires qc.Valid()
    modifies qc`order, qc`entries
    ensures qc.Valid() && qc.order == old(qc.order)
    ensures qc.entries ==
      if key in old(qc.entries) then old(qc.entries)[key := InboxEntry(old(qc.entries)[key], id, status)]
      else old(qc.entries)
  {
    if key in qc.entries {
      qc.SetQueryData(key, InboxEntry(qc.entries[key], id, status));
    }
  }

  /** patchInboxIssueStatus (packages/core/inbox/ws-updaters.ts) */
  method PatchInboxIssueStatus(qc: QueryClient, id: string, status: Status)
    requires qc.Valid()
    modifies qc`order, qc`entries
    ensures qc.Valid() && qc.order == old(qc.order)
    ensures qc.entries == InboxEdited(old(qc.entries), id, status)
  {
    PatchInboxList(qc, InboxKey, id, status);
    PatchInboxList(qc, ArchivedInboxKey, id, status);
  }

  /** What the caller learns from an edit of the entries. */
  ghost predicate Reports(r: Change, order: seq<Key>, was: Entries, ed: Edit) {
    && ReportsViews(r.prevLists, r.prevFlatLists, r.prevTableRows, r.staleKeys, order, was, ed)
    && r.prevDetail == DetailOf(was, ed.id)
    && r.prevInboxList == (if ed.patch.status.Some? then InboxOf(was, InboxKey) else None)
    && r.prevIssue == Or(LoadedCopy(order, was, ed), DetailOf(was, ed.id))
  }

  ghost predicate ReportsViews(
      prevLists: seq<Snapshot>, prevFlatLists: seq<Snapshot>, prevTableRows: seq<Snapshot>, staleKeys: seq<Key>,
      order: seq<Key>, was: Entries, ed: Edit)
  {
    && prevLists == SnapsOf(BoardEntries(order, was), ed)
    && prevFlatLists == SnapsOf(WindowEntries(order, was), ed)
    && prevTableRows == SnapsOf(TableEntries(order, was), ed)
    && staleKeys == StaleOf(BoardEntries(order, was), ed) + StaleOf(WindowEntries(order, was), ed)
  }

  /** The base issue, or else the first copy met in a board, a window, a table. */
  function LoadedCopy(order: seq<Key>, was: Entries, ed: Edit): Option<Issue> {
    var fromBoards := FirstCopyOf(ed.base, BoardEntries(order, was), ed.id);
    var fromWindows := FirstCopyOf(fromBoards, WindowEntries(order, was), ed.id);
    FirstCopyOf(fromWindows, TableEntries(order, was), ed.id)
  }

  method EditViews(qc: QueryClient, ed: Edit)
    returns (prevLists: seq<Snapshot>, prevFlatLists: seq<Snapshot>, prevTableRows: seq<Snapshot>,
             staleKeys: seq<Key>, prevIssue: Option<Issue>)
    requires qc.Valid()
    modifies qc`order, qc`entries
    ensures qc.Valid() && qc.order == old(qc.order)
    ensures qc.entries == ViewsEdited(old(qc.entries), ed)
    ensures ReportsViews(prevLists, prevFlatLists, prevTableRows, staleKeys, old(qc.order), old(qc.entries), ed)
    ensures prevIssue == LoadedCopy(old(qc.order), old(qc.entries), ed)
  {
    ghost var was := qc.entries;
    var staleBoards, staleWindows;
    prevLists, staleBoards, prevIssue := EditBoards(qc, ed);
    ghost var e1 := qc.entries;
    prevFlatLists, staleWindows, prevIssue := EditWindows(qc, ed, prevIssue);
    ghost var e2 := qc.entries;
    prevTableRows, prevIssue := EditTables(qc, ed, prevIssue);
    ThreeLoops(qc.order, was, e1, e2, qc.entries, ed);
    staleKeys := staleBoards + staleWindows;
  }

  function DetailEdited(entries: Entries, ed: Edit): Entries {
    var detail := DetailOf(entries, ed.id);
    if detail.Some? then entries[DetailKey(ed.id) := IssueData(Merge(detail.value, ed.patch))] else entries
  }

  function InboxApplied(entries: Entries, ed: Edit): Entries {
    if ed.patch.status.Some? && InboxOf(entries, InboxKey).Some? then
      InboxEdited(entries, ed.id, ed.patch.status.value)
    else entries
  }

  lemma ViewsThenDetailThenInbox(was: Entries, ed: Edit)
    ensures InboxApplied(DetailEdited(ViewsEdited(was, ed), ed), ed) == Applied(was, ed)
    ensures DetailOf(ViewsEdited(was, ed), ed.id) == DetailOf(was, ed.id)
    ensures InboxOf(DetailEdited(ViewsEdited(was, ed), ed), InboxKey) == InboxOf(was, InboxKey)
  {
  }

  method EditDetail(qc: QueryClient, ed: Edit) returns (prevDetail: Option<Issue>)
    requires qc.Valid()
    modifies qc`order, qc`entries
    ensures qc.Valid() && qc.order == old(qc.order)
    ensures qc.entries == DetailEdited(old(qc.entries), ed) && prevDetail == DetailOf(old(qc.entries), ed.id)
  {
    prevDetail := DetailOf(qc.entries, ed.id);
    if prevDetail.Some? {
      qc.SetQueryData(DetailKey(ed.id), IssueData(Merge(prevDetail.value, ed.patch)));
    }
  }

  method ApplyIssueChange(qc: QueryClient, ed: Edit) returns (r: Change)
    requires qc.Valid()
    modifies qc`order, qc`entries
    ensures qc.Valid() && qc.order == old(qc.order)
    ensures qc.entries == Applied(old(qc.entries), ed)
    ensures Reports(r, old(qc.order), old(qc.entries), ed)
  {
    ViewsThenDetailThenInbox(qc.entries, ed);
    var prevLists, prevFlatLists, prevTableRows, staleKeys, prevIssue := EditViews(qc, ed);
    var prevDetail := EditDetail(qc, ed);
    var prevInboxList: Option<seq<InboxItem>> := None;
    if ed.patch.status.Some? {
      prevInboxList := InboxOf(qc.entries, InboxKey);
      if prevInboxList.Some? {
        PatchInboxIssueStatus(qc, ed.id, ed.patch.status.value);
      }
    }
    r := Change(prevLists, prevFlatLists, prevTableRows, prevDetail, prevInboxList,
                staleKeys, Or(prevIssue, prevDetail));
  }

  /** The reported keys are the stale keys of the edit. */
  lemma StaleKeysReported(order: seq<Key>, was: Entries, ed: Edit, r: Change)
    requires Distinct(order) && (forall j :: j in order <==> j in was) && Reports(r, order, was, ed)
    ensures forall k :: k in r.staleKeys <==> k in StaleKeys(was, ed)
  {
    ViewsAreSampled(order, was);
    SnapsAndStaleOf(BoardEntries(order, was), ed);
    SnapsAndStaleOf(WindowEntries(order, was), ed);
    forall k: Key
      ensures k in r.staleKeys <==> k in StaleKeys(was, ed)
    {
      if k in was {
        VisitedIff(order, was, k);
      }
    }
  }

  /** The items of the inbox that are about the issue show its new status if the inbox is
      cached, archived ones too; all others are as they were, in their places. */
  lemma InboxFollows(entries: Entries, ed: Edit, k: Key)
    requires (k == InboxKey || k == ArchivedInboxKey) && InboxOf(entries, k).Some?
    requires ed.patch.status.Some? && InboxOf(entries, InboxKey).Some?
    ensures
      var before, after := InboxOf(entries, k).value, InboxOf(Applied(entries, ed), k);
      && after.Some? && |after.value| == |before|
      && forall n :: 0 <= n < |before| ==>
           && after.value[n].id == before[n].id && after.value[n].issueId == before[n].issueId
           && after.value[n].read == before[n].read
           && after.value[n].issueStatus ==
              if before[n].issueId == Some(ed.id) then ed.patch.status else before[n].issueStatus
  {
  }

  /** Without a new status, or without a cached inbox, no inbox changes. */
  lemma InboxStays(entries: Entries, ed: Edit, k: Key)
    requires (k == InboxKey || k == ArchivedInboxKey) && k in entries
    requires ed.patch.status.None? || InboxOf(entries, InboxKey).None?
    ensures Applied(entries, ed)[k] == entries[k]
  {
  }

  // The previous issue -------------------------------------------------------------------

  /** The view shows the issue. */
  ghost predicate Holds(k: Key, e: Entry, i: Issue) {
    || (IsBoard(k, e) && exists s: Status :: i in GetBucket(e.cache, s).issues)
    || (IsWindow(k, e) && i in PageIssues(e.pages))
    || (IsTable(k, e) && i in RowIssues(e.rows))
  }

  lemma CopyIsHeld(k: Key, e: Entry, id: string)
    ensures
      var copy := CopyIn(k, e, id);
      && (copy.Some? ==> copy.value.id == id && Holds(k, e, copy.value))
      && (copy.None? ==> forall i: Issue :: Holds(k, e, i) ==> i.id != id)
  {
    if IsBoard(k, e) {
      Found(e.cache, id);
    }
  }

  lemma {:induction false} FirstCopyIsHeld(prev: Option<Issue>, visited: seq<Snapshot>, id: string)
    ensures
      var copy := FirstCopyOf(prev, visited, id);
      && (prev.Some? ==> copy == prev)
      && (prev.None? && copy.Some? ==>
            copy.value.id == id && exists s <- visited :: Holds(s.key, s.entry, copy.value))
      && (copy.None? ==> forall s <- visited :: forall i: Issue :: Holds(s.key, s.entry, i) ==> i.id != id)
  {
    if visited == [] {
    } else {
      var n := |visited| - 1;
      assert visited == visited[..n] + [visited[n]];
      FirstCopyIsHeld(prev, visited[..n], id);
      CopyIsHeld(visited[n].key, visited[n].entry, id);
    }
  }

  /** The previous issue that is reported is the base of the edit, or else a copy some
      view shows, or else the detail; none only if there is none of these. */
  lemma PreviousIssue(order: seq<Key>, was: Entries, ed: Edit, r: Change)
    requires Distinct(order) && (forall k :: k in order <==> k in was) && Reports(r, order, was, ed)
    ensures ed.base.Some? ==> r.prevIssue == ed.base
    ensures ed.base.None? && r.prevIssue.Some? ==>
      || (r.prevIssue.value.id == ed.id && exists k <- was :: Holds(k, was[k], r.prevIssue.value))
      || r.prevIssue == DetailOf(was, ed.id)
    ensures r.prevIssue.None? ==>
      && DetailOf(was, ed.id).None?
      && forall k <- was :: forall i: Issue :: Holds(k, was[k], i) ==> i.id != ed.id
  {
    var boards, windows, tables := BoardEntries(order, was), WindowEntries(order, was), TableEntries(order, was);
    var fromBoards := FirstCopyOf(ed.base, boards, ed.id);
    FirstCopyIsHeld(ed.base, boards, ed.id);
    FirstCopyIsHeld(fromBoards, windows, ed.id);
    FirstCopyIsHeld(FirstCopyOf(fromBoards, windows, ed.id), tables, ed.id);
    ViewsAreSampled(order, was);
    forall k | k in was && InLoopedView(k)
      ensures
        var s := Snapshot(k, was[k]);
        s in boards || s in windows || s in tables
    {
      VisitedIff(order, was, k);
    }
  }
}
