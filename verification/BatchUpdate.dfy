/** The optimistic batch update and its undoing: onMutate and onError of
    useBatchUpdateIssues (packages/core/issues/mutations.ts). */
module BatchUpdate {
  import opened IssueTypes
  import opened Membership
  import opened QueryCache
  import opened Coordinator
  import opened ApplyChange
  import opened Rollback

  /** What onMutate hands to onError. The snapshot maps of the three view
      families are one map here: their keys are of different families. */
  datatype Context = Context(
    views: map<Key, Entry>,
    details: map<string, Issue>,
    inbox: Option<seq<InboxItem>>,
    children: map<string, seq<Issue>>,
    staleKeys: seq<Key>)

  const NOTHING_YET: Context := Context(map[], map[], None, map[], [])

  /** The edit the batch applies to one of its issues. */
  function BatchEdit(entries: Entries, id: string, patch: PartialIssue): Edit {
    var base := DetailOf(entries, id);
    Edit(id, patch, IssueChangedDims(patch, base), base)
  }

  /** The first snapshot of a key is the one that is kept. */
  function FirstWins(kept: map<Key, Entry>, snaps: seq<Snapshot>): map<Key, Entry> {
    if snaps == [] then kept
    else
      var last := snaps[|snaps| - 1];
      var before := FirstWins(kept, snaps[..|snaps| - 1]);
      if last.key in before then before else before[last.key := last.entry]
  }

  method KeepFirst(kept: map<Key, Entry>, snaps: seq<Snapshot>) returns (r: map<Key, Entry>)
    ensures r == FirstWins(kept, snaps)
  {
    r := kept;
    for n := 0 to |snaps|
      invariant r == FirstWins(kept, snaps[..n])
    {
      assert snaps[..n + 1][..n] == snaps[..n] && snaps[..n + 1][n] == snaps[n];
      if snaps[n].key !in r {
        r := r[snaps[n].key := snaps[n].entry];
      }
    }
    assert snaps[..|snaps|] == snaps;
  }

  function Remembered(ctx: Context, id: string, r: Change): Context {
    Context(
      FirstWins(FirstWins(FirstWins(ctx.views, r.prevLists), r.prevFlatLists), r.prevTableRows),
      if r.prevDetail.Some? then ctx.details[id := r.prevDetail.value] else ctx.details,
      Or(ctx.inbox, r.prevInboxList),
      ctx.children,
      ctx.staleKeys + r.staleKeys)
  }

  /** Entries after the first issues of the batch. */
  function BatchApplied(entries: Entries, ids: seq<string>, patch: PartialIssue): Entries {
    if ids == [] then entries
    else
      var before := BatchApplied(entries, ids[..|ids| - 1], patch);
      Applied(before, BatchEdit(before, ids[|ids| - 1], patch))
  }

  /** The keys that some edit of the batch reports stale. */
  function BatchStale(entries: Entries, ids: seq<string>, patch: PartialIssue): set<Key> {
    if ids == [] then {}
    else
      var before := BatchApplied(entries, ids[..|ids| - 1], patch);
      BatchStale(entries, ids[..|ids| - 1], patch)
      + StaleKeys(before, BatchEdit(before, ids[|ids| - 1], patch))
  }

  function IdSet(ids: seq<string>): set<string> {
    set id | id in ids
  }

  function PatchMany(issues: seq<Issue>, ids: set<string>, patch: PartialIssue): seq<Issue> {
    seq(|issues|, k requires 0 <= k < |issues| => if issues[k].id in ids then Merge(issues[k], patch) else issues[k])
  }

  predicate HasAny(issues: seq<Issue>, ids: set<string>) {
    exists i <- issues :: i.id in ids
  }

  predicate IsChildren(k: Key, e: Entry, ids: set<string>) {
    k.ChildrenKey? && e.IssueList? && HasAny(e.issues, ids)
  }

  function ChildEntry(k: Key, e: Entry, ids: set<string>, patch: PartialIssue): Entry {
    if IsChildren(k, e, ids) then IssueList(PatchMany(e.issues, ids, patch)) else e
  }

  // The loop over the ids -----------------------------------------------------------

  /** The snapshot map holds, for every view that has changed, its entry at the start. */
  ghost predicate ViewSaved(was: Entries, now: Entries, views: map<Key, Entry>, k: Key)
    requires now.Keys == was.Keys
  {
    && (k in views ==> k in was && InLoopedView(k) && views[k] == was[k])
    && (k in was && InLoopedView(k) && k !in views ==> now[k] == was[k])
  }

  /** The detail entry of id and its snapshot after the batch has visited `done`:
      a second visit overwrites the first snapshot. */
  ghost predicate DetailSaved(
      was: Entries, now: Entries, details: map<string, Issue>, done: seq<string>, patch: PartialIssue, id: string)
    requires now.Keys == was.Keys
  {
    var detail := DetailOf(was, id);
    && (id in details <==> id in done && detail.Some?)
    && (detail.Some? && id in done ==> now[DetailKey(id)] == IssueData(Merge(detail.value, patch)))
    && (detail.Some? && id !in done ==> now[DetailKey(id)] == was[DetailKey(id)])
    && (id in details && multiset(done)[id] == 1 ==> details[id] == detail.value)
    && (id in details && multiset(done)[id] > 1 ==> details[id] == Merge(detail.value, patch))
  }

  ghost predicate InboxSaved(was: Entries, now: Entries, inbox: Option<seq<InboxItem>>)
    requires now.Keys == was.Keys
  {
    && (inbox.Some? ==> inbox == InboxOf(was, InboxKey))
    && (inbox.None? && InboxKey in was ==> now[InboxKey] == was[InboxKey])
    && (InboxOf(was, InboxKey).Some? == InboxOf(now, InboxKey).Some?)
  }

  /** Everything else is as it was. */
  ghost predicate OthersKept(was: Entries, now: Entries, k: Key)
    requires now.Keys == was.Keys
  {
    k in was && !InLoopedView(k) && !(k.DetailKey? && was[k].IssueData?) && !k.InboxKey? && !k.ArchivedInboxKey?
    ==> now[k] == was[k]
  }

  /** The archived inbox after the batch has visited `done`. */
  function ArchiveAfter(was: Entries, done: set<string>, patch: PartialIssue): seq<InboxItem>
    requires InboxOf(was, ArchivedInboxKey).Some?
  {
    var items := was[ArchivedInboxKey].items;
    if patch.status.Some? && InboxOf(was, InboxKey).Some? then
      seq(|items|, k requires 0 <= k < |items| =>
        if items[k].issueId.Some? && items[k].issueId.value in done then items[k].(issueStatus := patch.status)
        else items[k])
    else items
  }

  ghost predicate ArchiveSaved(was: Entries, now: Entries, done: seq<string>, patch: PartialIssue)
    requires now.Keys == was.Keys
  {
    ArchivedInboxKey in was ==>
      now[ArchivedInboxKey] ==
      if was[ArchivedInboxKey].Inbox? then Inbox(ArchiveAfter(was, IdSet(done), patch)) else was[ArchivedInboxKey]
  }

  ghost predicate Saved(was: Entries, now: Entries, ctx: Context, done: seq<string>, patch: PartialIssue) {
    && now.Keys == was.Keys
    && (forall k :: ViewSaved(was, now, ctx.views, k))
    && (forall id :: DetailSaved(was, now, ctx.details, done, patch, id))
    && InboxSaved(was, now, ctx.inbox)
    && ArchiveSaved(was, now, done, patch)
    && (forall k :: OthersKept(was, now, k))
  }

  lemma {:induction false} FirstWinsAt(kept: map<Key, Entry>, snaps: seq<Snapshot>, now: Entries, k: Key)
    requires TrueSnapshots(snaps, now)
    ensures k in FirstWins(kept, snaps) <==> k in kept || Saves(snaps, k)
    ensures k in FirstWins(kept, snaps) ==> FirstWins(kept, snaps)[k] == if k in kept then kept[k] else now[k]
  {
    if snaps == [] {
    } else {
      var n := |snaps| - 1;
      assert snaps == snaps[..n] + [snaps[n]];
      FirstWinsAt(kept, snaps[..n], now, k);
      assert Saves(snaps, k) <==> Saves(snaps[..n], k) || snaps[n].key == k;
    }
  }

  lemma ViewStep(
      order: seq<Key>, was: Entries, now: Entries, ctx: Context, ed: Edit, r: Change, k: Key)
    requires Distinct(order) && (forall j :: j in order <==> j in now) && now.Keys == was.Keys
    requires Reports(r, order, now, ed) && ViewSaved(was, now, ctx.views, k)
    ensures ViewSaved(was, Applied(now, ed), Remembered(ctx, ed.id, r).views, k)
  {
    ReportedSnapshotsFit(order, now, ed, r, k);
    ViewSavedNext(was, now, Applied(now, ed), ctx, ed.id, r, k);
  }

  lemma ViewSavedNext(was: Entries, now: Entries, next: Entries, ctx: Context, id: string, r: Change, k: Key)
    requires now.Keys == was.Keys && SnapshotsFit(r, now, next, k) && ViewSaved(was, now, ctx.views, k)
    ensures ViewSaved(was, next, Remembered(ctx, id, r).views, k)
  {
    FirstWinsAt(ctx.views, r.prevLists, now, k);
    var v1 := FirstWins(ctx.views, r.prevLists);
    FirstWinsAt(v1, r.prevFlatLists, now, k);
    var v2 := FirstWins(v1, r.prevFlatLists);
    FirstWinsAt(v2, r.prevTableRows, now, k);
  }

  /** Only the issue's own detail entry is edited, by merging the patch. */
  lemma DetailEditedAt(now: Entries, ed: Edit, id: string)
    ensures
      DetailKey(id) in now ==>
      Applied(now, ed)[DetailKey(id)] ==
      if id == ed.id && DetailOf(now, id).Some? then IssueData(Merge(DetailOf(now, id).value, ed.patch))
      else now[DetailKey(id)]
  {
  }

  lemma DetailSavedNext(
      was: Entries, now: Entries, next: Entries, details: map<string, Issue>, done: seq<string>, ed: Edit, id: string)
    requires now.Keys == was.Keys == next.Keys
    requires DetailSaved(was, now, details, done, ed.patch, id) && DetailOf(was, id).Some? == DetailOf(now, id).Some?
    requires
      DetailKey(id) in now ==>
      next[DetailKey(id)] ==
      if id == ed.id && DetailOf(now, id).Some? then IssueData(Merge(DetailOf(now, id).value, ed.patch))
      else now[DetailKey(id)]
    ensures
      var prev := DetailOf(now, ed.id);
      DetailSaved(was, next, if prev.Some? then details[ed.id := prev.value] else details, done + [ed.id], ed.patch, id)
  {
    if DetailOf(was, id).Some? {
      SpreadDescribes(None, DetailOf(was, id).value, ed.patch);
    }
    assert id in done <==> multiset(done)[id] > 0;
  }

  lemma DetailStep(
      order: seq<Key>, was: Entries, now: Entries, ctx: Context, done: seq<string>, ed: Edit, r: Change, id: string)
    requires now.Keys == was.Keys && Reports(r, order, now, ed)
    requires DetailSaved(was, now, ctx.details, done, ed.patch, id)
    requires DetailOf(was, id).Some? == DetailOf(now, id).Some?
    ensures DetailSaved(was, Applied(now, ed), Remembered(ctx, ed.id, r).details, done + [ed.id], ed.patch, id)
  {
    DetailEditedAt(now, ed, id);
    DetailSavedNext(was, now, Applied(now, ed), ctx.details, done, ed, id);
  }

  lemma ArchiveStep(was: Entries, now: Entries, ctx: Context, done: seq<string>, ed: Edit)
    requires now.Keys == was.Keys && InboxSaved(was, now, ctx.inbox)
    requires ArchiveSaved(was, now, done, ed.patch)
    ensures ArchiveSaved(was, Applied(now, ed), done + [ed.id], ed.patch)
  {
    if InboxOf(was, ArchivedInboxKey).Some? {
      assert IdSet(done + [ed.id]) == IdSet(done) + {ed.id};
      assert InboxOf(Applied(now, ed), ArchivedInboxKey).value == ArchiveAfter(was, IdSet(done + [ed.id]), ed.patch);
    }
  }

  lemma OthersKeptNext(was: Entries, now: Entries, ed: Edit, k: Key)
    requires now.Keys == was.Keys && OthersKept(was, now, k)
    ensures OthersKept(was, Applied(now, ed), k)
  {
  }

  lemma InboxStep(order: seq<Key>, was: Entries, now: Entries, ctx: Context, ed: Edit, r: Change)
    requires now.Keys == was.Keys && Reports(r, order, now, ed) && InboxSaved(was, now, ctx.inbox)
    ensures InboxSaved(was, Applied(now, ed), Remembered(ctx, ed.id, r).inbox)
  {
  }

  lemma OthersStep(order: seq<Key>, was: Entries, now: Entries, ctx: Context, ed: Edit, r: Change)
    requires now.Keys == was.Keys && Reports(r, order, now, ed)
    requires InboxSaved(was, now, ctx.inbox) && forall k :: OthersKept(was, now, k)
    ensures InboxSaved(was, Applied(now, ed), Remembered(ctx, ed.id, r).inbox)
    ensures forall k :: OthersKept(was, Applied(now, ed), k)
  {
    InboxStep(order, was, now, ctx, ed, r);
    forall k: Key
      ensures OthersKept(was, Applied(now, ed), k)
    {
      assert OthersKept(was, now, k);
      OthersKeptNext(was, now, ed, k);
    }
  }

  lemma ViewsStep(order: seq<Key>, was: Entries, now: Entries, ctx: Context, ed: Edit, r: Change)
    requires Distinct(order) && (forall j :: j in order <==> j in now) && now.Keys == was.Keys
    requires Reports(r, order, now, ed) && forall k :: ViewSaved(was, now, ctx.views, k)
    ensures forall k :: ViewSaved(was, Applied(now, ed), Remembered(ctx, ed.id, r).views, k)
  {
    forall k: Key
      ensures ViewSaved(was, Applied(now, ed), Remembered(ctx, ed.id, r).views, k)
    {
      assert ViewSaved(was, now, ctx.views, k);
      ViewStep(order, was, now, ctx, ed, r, k);
    }
  }

  lemma SavedStep(
      order: seq<Key>, was: Entries, now: Entries, ctx: Context, done: seq<string>, ed: Edit, r: Change)
    requires Distinct(order) && forall j :: j in order <==> j in now
    requires Saved(was, now, ctx, done, ed.patch) && Reports(r, order, now, ed)
    ensures Saved(was, Applied(now, ed), Remembered(ctx, ed.id, r), done + [ed.id], ed.patch)
  {
    ViewsStep(order, was, now, ctx, ed, r);
    forall id: string
      ensures DetailSaved(was, Applied(now, ed), Remembered(ctx, ed.id, r).details, done + [ed.id], ed.patch, id)
    {
      assert DetailSaved(was, now, ctx.details, done, ed.patch, id);
      assert OthersKept(was, now, DetailKey(id));
      DetailStep(order, was, now, ctx, done, ed, r, id);
    }
    OthersStep(order, was, now, ctx, ed, r);
    ArchiveStep(was, now, ctx, done, ed);
  }

  method EditEach(qc: QueryClient, ids: seq<string>, patch: PartialIssue) returns (ctx: Context)
    requires qc.Valid()
    modifies qc`order, qc`entries
    ensures qc.Valid() && qc.order == old(qc.order)
    ensures qc.entries == BatchApplied(old(qc.entries), ids, patch)
    ensures Saved(old(qc.entries), qc.entries, ctx, ids, patch) && ctx.children == map[]
    ensures forall k :: k in ctx.staleKeys <==> k in BatchStale(old(qc.entries), ids, patch)
  {
    ghost var was := qc.entries;
    ctx := NOTHING_YET;
    for n := 0 to |ids|
      invariant qc.Valid() && qc.order == old(qc.order)
      invariant qc.entries == BatchApplied(was, ids[..n], patch)
      invariant Saved(was, qc.entries, ctx, ids[..n], patch) && ctx.children == map[]
      invariant forall k :: k in ctx.staleKeys <==> k in BatchStale(was, ids[..n], patch)
    {
      assert ids[..n + 1][..n] == ids[..n] && ids[..n + 1] == ids[..n] + [ids[n]];
      ghost var now := qc.entries;
      var ed := BatchEdit(qc.entries, ids[n], patch);
      var change := ApplyIssueChange(qc, ed);
      SavedStep(qc.order, was, now, ctx, ids[..n], ed, change);
      StaleKeysReported(qc.order, now, ed, change);
      ctx := Remember(ctx, ids[n], change);
    }
    assert ids[..|ids|] == ids;
  }

  method Remember(ctx: Context, id: string, r: Change) returns (next: Context)
    ensures next == Remembered(ctx, id, r)
  {
    var views := KeepFirst(ctx.views, r.prevLists);
    views := KeepFirst(views, r.prevFlatLists);
    views := KeepFirst(views, r.prevTableRows);
    next := Context(views,
                    if r.prevDetail.Some? then ctx.details[id := r.prevDetail.value] else ctx.details,
                    Or(ctx.inbox, r.prevInboxList), ctx.children, ctx.staleKeys + r.staleKeys);
  }

  // The children caches -----------------------------------------------------------------

  function ChildrenPatched(entries: Entries, ids: set<string>, patch: PartialIssue): Entries {
    map k | k in entries :: ChildEntry(k, entries[k], ids, patch)
  }

  function ChildrenKept(entries: Entries, ids: set<string>): map<string, seq<Issue>> {
    map k | k in entries && IsChildren(k, entries[k], ids) :: k.parentId := entries[k].issues
  }

  ghost predicate ChildrenLooped(
      was: Entries, now: Entries, kept: map<string, seq<Issue>>, visited: seq<Snapshot>,
      ids: set<string>, patch: PartialIssue)
  {
    && now.Keys == was.Keys
    && (forall k <- was ::
          now[k] == if Snapshot(k, was[k]) in visited then ChildEntry(k, was[k], ids, patch) else was[k])
    && (forall p :: p in kept <==>
          ChildrenKey(p) in was && Snapshot(ChildrenKey(p), was[ChildrenKey(p)]) in visited
          && IsChildren(ChildrenKey(p), was[ChildrenKey(p)], ids))
    && (forall p <- kept :: kept[p] == was[ChildrenKey(p)].issues)
  }

  method EditChildren(qc: QueryClient, ids: set<string>, patch: PartialIssue) returns (kept: map<string, seq<Issue>>)
    requires qc.Valid()
    modifies qc`order, qc`entries
    ensures qc.Valid() && qc.order == old(qc.order)
    ensures qc.entries == ChildrenPatched(old(qc.entries), ids, patch)
    ensures kept == ChildrenKept(old(qc.entries), ids)
  {
    ghost var was := qc.entries;
    var view := QueriesData(qc.order, qc.entries, (k: Key) => k.ChildrenKey?);
    kept := map[];
    for n := 0 to |view|
      invariant qc.Valid() && qc.order == old(qc.order)
      invariant ChildrenLooped(was, qc.entries, kept, view[..n], ids, patch)
    {
      var key, entry := view[n].key, view[n].entry;
      assert view[..n + 1] == view[..n] + [view[n]];
      OneMoreChild(was, qc.entries, kept, view[..n], view[n], ids, patch);
      if IsChildren(key, entry, ids) {
        kept := kept[key.parentId := entry.issues];
        qc.SetQueryData(key, IssueList(PatchMany(entry.issues, ids, patch)));
      }
    }
    assert view[..|view|] == view;
    AllChildren(was, qc.entries, kept, view, ids, patch);
  }

  lemma OneMoreChild(was: Entries, now: Entries, kept: map<string, seq<Issue>>, visited: seq<Snapshot>, s: Snapshot,
                     ids: set<string>, patch: PartialIssue)
    requires ChildrenLooped(was, now, kept, visited, ids, patch) && s.key in was && s.entry == was[s.key]
    ensures
      if IsChildren(s.key, s.entry, ids) then
        ChildrenLooped(was, now[s.key := IssueList(PatchMany(s.entry.issues, ids, patch))],
                       kept[s.key.parentId := s.entry.issues], visited + [s], ids, patch)
      else ChildrenLooped(was, now, kept, visited + [s], ids, patch)
  {
  }

  lemma AllChildren(was: Entries, now: Entries, kept: map<string, seq<Issue>>, view: seq<Snapshot>,
                    ids: set<string>, patch: PartialIssue)
    requires ChildrenLooped(was, now, kept, view, ids, patch)
    requires forall k <- was | k.ChildrenKey? :: Snapshot(k, was[k]) in view
    ensures now == ChildrenPatched(was, ids, patch) && kept == ChildrenKept(was, ids)
  {
  }

  /** The children of a list after the batch: those it names with the patch over them,
      the others as they were, in their places. */
  ghost predicate ChildrenOverlaid(before: seq<Issue>, after: seq<Issue>, ids: seq<string>, patch: PartialIssue) {
    && |after| == |before|
    && forall k :: 0 <= k < |before| ==>
         && (before[k].id in ids ==> after[k] == Merge(before[k], patch))
         && (before[k].id !in ids ==> after[k] == before[k])
  }

  lemma BatchLeavesChildren(was: Entries, ids: seq<string>, patch: PartialIssue, edited: Entries, ctx: Context, k: Key)
    requires Saved(was, edited, ctx, ids, patch) && k in was && k.ChildrenKey?
    ensures edited[k] == was[k]
  {
    assert OthersKept(was, edited, k);
  }

  lemma BatchOverlaysChildren(was: Entries, edited: Entries, ctx: Context, ids: seq<string>, patch: PartialIssue,
                              q: string)
    requires Saved(was, edited, ctx, ids, patch)
    requires ChildrenKey(q) in was && was[ChildrenKey(q)].IssueList?
    ensures
      var now := ChildrenPatched(edited, IdSet(ids), patch);
      && ChildrenKey(q) in now && now[ChildrenKey(q)].IssueList?
      && ChildrenOverlaid(was[ChildrenKey(q)].issues, now[ChildrenKey(q)].issues, ids, patch)
  {
    BatchLeavesChildren(was, ids, patch, edited, ctx, ChildrenKey(q));
    var issues := was[ChildrenKey(q)].issues;
    if !HasAny(issues, IdSet(ids)) {
      forall k | 0 <= k < |issues|
        ensures issues[k].id !in ids
      {
        assert issues[k] in issues;
      }
    }
  }

  /** onMutate */
  method OnMutate(qc: QueryClient, ids: seq<string>, patch: PartialIssue) returns (ctx: Context)
    requires qc.Valid()
    modifies qc`order, qc`entries
    ensures qc.Valid() && qc.order == old(qc.order)
    ensures
      var edited := BatchApplied(old(qc.entries), ids, patch);
      var idSet := IdSet(ids);
      && qc.entries == ChildrenPatched(edited, idSet, patch)
      && Saved(old(qc.entries), edited, ctx, ids, patch)
      && ctx.children == ChildrenKept(edited, idSet)
    ensures forall q :: ChildrenKey(q) in old(qc.entries) && old(qc.entries)[ChildrenKey(q)].IssueList? ==>
      && ChildrenKey(q) in qc.entries && qc.entries[ChildrenKey(q)].IssueList?
      && ChildrenOverlaid(old(qc.entries)[ChildrenKey(q)].issues, qc.entries[ChildrenKey(q)].issues, ids, patch)
    ensures forall k :: k in ctx.staleKeys <==> k in BatchStale(old(qc.entries), ids, patch)
  {
    ghost var was := qc.entries;
    ctx := EditEach(qc, ids, patch);
    ghost var edited, saved := qc.entries, ctx;
    var idSet := IdSet(ids);
    var kept := EditChildren(qc, idSet, patch);
    ctx := ctx.(children := kept);
    forall q | ChildrenKey(q) in was && was[ChildrenKey(q)].IssueList?
      ensures ChildrenKey(q) in qc.entries && qc.entries[ChildrenKey(q)].IssueList?
      ensures ChildrenOverlaid(was[ChildrenKey(q)].issues, qc.entries[ChildrenKey(q)].issues, ids, patch)
    {
      BatchOverlaysChildren(was, edited, saved, ids, patch, q);
    }
  }

  // Undoing ------------------------------------------------------------------------------

  function DetailEntries(details: map<string, Issue>): (r: map<Key, Entry>)
    ensures forall k :: k in r <==> k.DetailKey? && k.id in details
    ensures forall k <- r :: r[k] == IssueData(details[k.id])
  {
    map id | id in details :: DetailKey(id) := IssueData(details[id])
  }

  function InboxEntries(inbox: Option<seq<InboxItem>>): map<Key, Entry> {
    if inbox.Some? then map[InboxKey := Inbox(inbox.value)] else map[]
  }

  function ChildEntries(children: map<string, seq<Issue>>): (r: map<Key, Entry>)
    ensures forall k :: k in r <==> k.ChildrenKey? && k.parentId in children
    ensures forall k <- r :: r[k] == IssueList(children[k.parentId])
  {
    map p | p in children :: ChildrenKey(p) := IssueList(children[p])
  }

  function Undone(entries: Entries, ctx: Context): Entries {
    entries + ctx.views + DetailEntries(ctx.details) + InboxEntries(ctx.inbox) + ChildEntries(ctx.children)
  }

  /** Writes every pair back; the keys are distinct, so the order does not matter. */
  method WriteBack(qc: QueryClient, saved: map<Key, Entry>)
    requires qc.Valid()
    modifies qc`order, qc`entries
    ensures qc.Valid() && qc.entries == old(qc.entries) + saved
  {
    var rest := saved.Keys;
    ghost var was := qc.entries;
    while rest != {}
      invariant qc.Valid() && rest <= saved.Keys
      invariant qc.entries == was + (saved - rest)
    {
      var k :| k in rest;
      qc.SetQueryData(k, saved[k]);
      rest := rest - {k};
    }
    assert saved - {} == saved;
  }

  /** onError */
  method OnError(qc: QueryClient, ctx: Context)
    requires qc.Valid()
    modifies qc`order, qc`entries
    ensures qc.Valid() && qc.entries == Undone(old(qc.entries), ctx)
  {
    WriteBack(qc, ctx.views);
    WriteBack(qc, DetailEntries(ctx.details));
    WriteBack(qc, InboxEntries(ctx.inbox));
    WriteBack(qc, ChildEntries(ctx.children));
  }

  /** The batch visits id more than once and its detail does not absorb the patch. */
  predicate Overwritten(was: Entries, ids: seq<string>, patch: PartialIssue, id: string) {
    && multiset(ids)[id] > 1
    && DetailOf(was, id).Some?
    && Merge(DetailOf(was, id).value, patch) != DetailOf(was, id).value
  }

  lemma SavedKeysAreOld(was: Entries, edited: Entries, ctx: Context, ids: seq<string>, patch: PartialIssue)
    requires Saved(was, edited, ctx, ids, patch)
    requires ctx.children == ChildrenKept(edited, IdSet(ids))
    ensures Undone(ChildrenPatched(edited, IdSet(ids), patch), ctx).Keys == was.Keys
  {
    forall k | k in DetailEntries(ctx.details)
      ensures k in was
    {
      assert DetailSaved(was, edited, ctx.details, ids, patch, k.id);
    }
    forall k | k in ctx.views
      ensures k in was
    {
      assert ViewSaved(was, edited, ctx.views, k);
    }
    assert forall k <- ChildEntries(ctx.children) :: k in edited;
    assert forall k <- InboxEntries(ctx.inbox) :: k in was;
    var entries := ChildrenPatched(edited, IdSet(ids), patch);
    assert entries.Keys == was.Keys;
    KeysStay(entries, ctx.views);
    KeysStay(entries + ctx.views, DetailEntries(ctx.details));
    KeysStay(entries + ctx.views + DetailEntries(ctx.details), InboxEntries(ctx.inbox));
    KeysStay(entries + ctx.views + DetailEntries(ctx.details) + InboxEntries(ctx.inbox), ChildEntries(ctx.children));
  }

  lemma KeysStay(entries: Entries, saved: map<Key, Entry>)
    requires forall k <- saved :: k in entries
    ensures (entries + saved).Keys == entries.Keys
  {
  }

  lemma UndoneAt(entries: Entries, ctx: Context, k: Key)
    requires k in entries
    ensures k in Undone(entries, ctx)
    ensures Undone(entries, ctx)[k] ==
      match k
      case ChildrenKey(p) =>
        if p in ctx.children then IssueList(ctx.children[p]) else if k in ctx.views then ctx.views[k] else entries[k]
      case InboxKey =>
        if ctx.inbox.Some? then Inbox(ctx.inbox.value) else if k in ctx.views then ctx.views[k] else entries[k]
      case DetailKey(id) =>
        if id in ctx.details then IssueData(ctx.details[id]) else if k in ctx.views then ctx.views[k] else entries[k]
      case _ => if k in ctx.views then ctx.views[k] else entries[k]
  {
    var viewed := entries + ctx.views;
    var detailed := viewed + DetailEntries(ctx.details);
    var boxed := detailed + InboxEntries(ctx.inbox);
    assert k in viewed && viewed[k] == if k in ctx.views then ctx.views[k] else entries[k];
    assert k in detailed && (!k.DetailKey? ==> detailed[k] == viewed[k]);
    assert k in boxed && (k != InboxKey ==> boxed[k] == detailed[k]);
  }

  /** What onError cannot bring back: an archived inbox the batch reaches, and the
      detail of an issue whose snapshot a second visit overwrote. */
  predicate Spoiled(was: Entries, ids: seq<string>, patch: PartialIssue, k: Key) {
    || (k == ArchivedInboxKey && ReachesArchive(was, IdSet(ids), patch))
    || (k.DetailKey? && Overwritten(was, ids, patch, k.id))
  }

  lemma ArchiveUndone(was: Entries, edited: Entries, ctx: Context, ids: seq<string>, patch: PartialIssue)
    requires Saved(was, edited, ctx, ids, patch) && ArchivedInboxKey in was
    ensures edited[ArchivedInboxKey] == was[ArchivedInboxKey] <==> !ReachesArchive(was, IdSet(ids), patch)
  {
    if InboxOf(was, ArchivedInboxKey).Some? {
      var items, after := was[ArchivedInboxKey].items, ArchiveAfter(was, IdSet(ids), patch);
      if ReachesArchive(was, IdSet(ids), patch) {
        var item :| item in items && item.issueId.Some? && item.issueId.value in IdSet(ids)
                 && item.issueStatus != patch.status;
        var k :| 0 <= k < |items| && items[k] == item;
        assert after[k] != items[k];
      } else {
        assert after == items;
      }
    }
  }

  lemma BatchUndoneAt(was: Entries, edited: Entries, ctx: Context, ids: seq<string>, patch: PartialIssue, k: Key)
    requires Saved(was, edited, ctx, ids, patch)
    requires ctx.children == ChildrenKept(edited, IdSet(ids)) && k in was
    ensures
      var back := Undone(ChildrenPatched(edited, IdSet(ids), patch), ctx);
      k in back && (back[k] == was[k] <==> !Spoiled(was, ids, patch, k))
  {
    var entries := ChildrenPatched(edited, IdSet(ids), patch);
    UndoneAt(entries, ctx, k);
    match k
    case ChildrenKey(p) => ChildUndone(was, edited, ctx, ids, patch, p);
    case DetailKey(id) => DetailUndone(was, edited, ctx, ids, patch, id);
    case InboxKey => OtherUndone(was, edited, ctx, ids, patch, k);
    case _ =>
      OtherUndone(was, edited, ctx, ids, patch, k);
      if k == ArchivedInboxKey {
        ArchiveUndone(was, edited, ctx, ids, patch);
      }
  }

  /** A children cache is patched after the edits and put back. */
  lemma ChildUndone(was: Entries, edited: Entries, ctx: Context, ids: seq<string>, patch: PartialIssue, p: string)
    requires Saved(was, edited, ctx, ids, patch)
    requires ctx.children == ChildrenKept(edited, IdSet(ids)) && ChildrenKey(p) in was
    ensures ChildrenKey(p) !in ctx.views
    ensures
      var k := ChildrenKey(p);
      was[k] == if p in ctx.children then IssueList(ctx.children[p]) else ChildrenPatched(edited, IdSet(ids), patch)[k]
  {
    assert ViewSaved(was, edited, ctx.views, ChildrenKey(p));
    assert OthersKept(was, edited, ChildrenKey(p));
  }

  /** A looped view or the inbox is put back if it was changed. */
  lemma OtherUndone(was: Entries, edited: Entries, ctx: Context, ids: seq<string>, patch: PartialIssue, k: Key)
    requires Saved(was, edited, ctx, ids, patch) && k in was && !k.ChildrenKey? && !k.DetailKey?
    ensures ChildrenPatched(edited, IdSet(ids), patch)[k] == edited[k]
    ensures k == InboxKey || k == ArchivedInboxKey ==> k !in ctx.views
    ensures
      k != ArchivedInboxKey ==>
        was[k] ==
        if k == InboxKey && ctx.inbox.Some? then Inbox(ctx.inbox.value)
        else if k in ctx.views then ctx.views[k] else edited[k]
  {
    assert ViewSaved(was, edited, ctx.views, k);
    assert OthersKept(was, edited, k);
  }

  lemma DetailUndone(was: Entries, edited: Entries, ctx: Context, ids: seq<string>, patch: PartialIssue, id: string)
    requires Saved(was, edited, ctx, ids, patch) && DetailKey(id) in was
    ensures
      var k := DetailKey(id);
      var back := if id in ctx.details then IssueData(ctx.details[id]) else edited[k];
      Overwritten(was, ids, patch, id) <==> back != was[k]
    ensures DetailKey(id) !in ctx.views
    ensures ChildrenPatched(edited, IdSet(ids), patch)[DetailKey(id)] == edited[DetailKey(id)]
  {
    assert ViewSaved(was, edited, ctx.views, DetailKey(id));
    assert DetailSaved(was, edited, ctx.details, ids, patch, id);
    assert OthersKept(was, edited, DetailKey(id));
    assert id in ids <==> multiset(ids)[id] > 0;
  }

  /** For every list of ids, distinct or not, the undoing of the batch is exact if
      and only if nothing was spoiled. */
  lemma BatchUndoneIff(was: Entries, edited: Entries, ctx: Context, ids: seq<string>, patch: PartialIssue)
    requires Saved(was, edited, ctx, ids, patch)
    requires ctx.children == ChildrenKept(edited, IdSet(ids))
    ensures Undone(ChildrenPatched(edited, IdSet(ids), patch), ctx) == was <==>
            forall k <- was :: !Spoiled(was, ids, patch, k)
  {
    SavedKeysAreOld(was, edited, ctx, ids, patch);
    var back := Undone(ChildrenPatched(edited, IdSet(ids), patch), ctx);
    EqualIff(was, back);
    forall k | k in was
      ensures back[k] == was[k] <==> !Spoiled(was, ids, patch, k)
    {
      BatchUndoneAt(was, edited, ctx, ids, patch, k);
    }
  }

  lemma EqualIff(a: Entries, b: Entries)
    requires a.Keys == b.Keys
    ensures a == b <==> forall k <- a :: b[k] == a[k]
  {
  }

  /** A batch of distinct ids is undone exactly, up to the archived inbox. */
  lemma DistinctBatchIsUndone(
      was: Entries, edited: Entries, ctx: Context, ids: seq<string>, patch: PartialIssue, k: Key)
    requires Saved(was, edited, ctx, ids, patch)
    requires ctx.children == ChildrenKept(edited, IdSet(ids))
    requires Distinct(ids) && k in was && k != ArchivedInboxKey
    ensures
      var back := Undone(ChildrenPatched(edited, IdSet(ids), patch), ctx);
      k in back && back[k] == was[k]
  {
    BatchUndoneAt(was, edited, ctx, ids, patch, k);
    if k.DetailKey? {
      DistinctCountsOnce(ids, k.id);
    }
  }

  lemma {:induction false} DistinctCountsOnce(ids: seq<string>, id: string)
    requires Distinct(ids)
    ensures multiset(ids)[id] <= 1
  {
    if ids == [] {
    } else {
      var n := |ids| - 1;
      DistinctCountsOnce(ids[..n], id);
      assert ids == ids[..n] + [ids[n]];
      if ids[n] == id {
        assert id !in ids[..n];
      }
    }
  }

  /** A batch whose request fails. */
  method FailedBatch(qc: QueryClient, ids: seq<string>, patch: PartialIssue)
    requires qc.Valid()
    modifies qc`order, qc`entries
    ensures qc.Valid()
    ensures qc.entries == old(qc.entries) <==> forall k <- old(qc.entries) :: !Spoiled(old(qc.entries), ids, patch, k)
  {
    var ctx := OnMutate(qc, ids, patch);
    OnError(qc, ctx);
    BatchUndoneIff(old(qc.entries), BatchApplied(old(qc.entries), ids, patch), ctx, ids, patch);
  }
}
