/** rollbackIssueChange (packages/core/issues/cache-coordinator.ts) undoes
    applyIssueChange on every view but the archived inbox list. */
module Rollback {
  import opened IssueTypes
  import opened QueryCache
  import opened Coordinator
  import opened ApplyChange

  /** Writing snapshots back, one after another. */
  function WriteAll(entries: Entries, snaps: seq<Snapshot>): Entries {
    if snaps == [] then entries
    else
      var last := snaps[|snaps| - 1];
      WriteAll(entries, snaps[..|snaps| - 1])[last.key := last.entry]
  }

  method RestoreAll(qc: QueryClient, snaps: seq<Snapshot>)
    requires qc.Valid()
    modifies qc`order, qc`entries
    ensures qc.Valid() && qc.entries == WriteAll(old(qc.entries), snaps)
    ensures (forall s <- snaps :: s.key in old(qc.entries)) ==> qc.order == old(qc.order)
  {
    ghost var was, order := qc.entries, qc.order;
    for n := 0 to |snaps|
      invariant qc.Valid() && qc.entries == WriteAll(was, snaps[..n])
      invariant was.Keys <= qc.entries.Keys
      invariant (forall s <- snaps :: s.key in was) ==> qc.order == order
    {
      assert snaps[..n + 1][..n] == snaps[..n] && snaps[..n + 1][n] == snaps[n];
      assert snaps[n] in snaps;
      qc.SetQueryData(snaps[n].key, snaps[n].entry);
    }
    assert snaps[..|snaps|] == snaps;
  }

  function ViewsRestored(entries: Entries, r: Change): Entries {
    WriteAll(WriteAll(WriteAll(entries, r.prevLists), r.prevFlatLists), r.prevTableRows)
  }

  function RolledBack(entries: Entries, id: string, r: Change): Entries {
    var views := ViewsRestored(entries, r);
    var details := if r.prevDetail.Some? then views[DetailKey(id) := IssueData(r.prevDetail.value)] else views;
    if r.prevInboxList.Some? then details[InboxKey := Inbox(r.prevInboxList.value)] else details
  }

  method RollbackIssueChange(qc: QueryClient, id: string, r: Change)
    requires qc.Valid()
    modifies qc`order, qc`entries
    ensures qc.Valid() && qc.entries == RolledBack(old(qc.entries), id, r)
  {
    RestoreAll(qc, r.prevLists);
    RestoreAll(qc, r.prevFlatLists);
    RestoreAll(qc, r.prevTableRows);
    if r.prevDetail.Some? {
      qc.SetQueryData(DetailKey(id), IssueData(r.prevDetail.value));
    }
    if r.prevInboxList.Some? {
      qc.SetQueryData(InboxKey, Inbox(r.prevInboxList.value));
    }
  }

  ghost predicate TrueSnapshots(snaps: seq<Snapshot>, was: Entries) {
    forall s <- snaps :: s.key in was && was[s.key] == s.entry
  }

  ghost predicate Saves(snaps: seq<Snapshot>, k: Key) {
    exists s <- snaps :: s.key == k
  }

  /** Writing true snapshots back restores what they save and nothing else. */
  lemma {:induction false} WriteAllAt(entries: Entries, snaps: seq<Snapshot>, was: Entries, k: Key)
    requires entries.Keys == was.Keys && TrueSnapshots(snaps, was)
    ensures WriteAll(entries, snaps).Keys == was.Keys
    ensures k in was ==> WriteAll(entries, snaps)[k] == if Saves(snaps, k) then was[k] else entries[k]
  {
    if snaps == [] {
    } else {
      var n := |snaps| - 1;
      assert snaps == snaps[..n] + [snaps[n]];
      WriteAllAt(entries, snaps[..n], was, k);
      assert Saves(snaps, k) <==> Saves(snaps[..n], k) || snaps[n].key == k;
    }
  }

  /** The snapshots of an edit are true, and save what the edit rewrites. */
  lemma SnapshotsOfEdit(order: seq<Key>, was: Entries, ed: Edit, k: Key)
    requires Distinct(order) && forall j :: j in order <==> j in was
    ensures TrueSnapshots(SnapsOf(BoardEntries(order, was), ed), was)
    ensures TrueSnapshots(SnapsOf(WindowEntries(order, was), ed), was)
    ensures TrueSnapshots(SnapsOf(TableEntries(order, was), ed), was)
    ensures k in was && InLoopedView(k) && PatchedEntry(k, was[k], ed, true) != was[k] ==>
      || Saves(SnapsOf(BoardEntries(order, was), ed), k)
      || Saves(SnapsOf(WindowEntries(order, was), ed), k)
      || Saves(SnapsOf(TableEntries(order, was), ed), k)
    ensures !InLoopedView(k) ==>
      && !Saves(SnapsOf(BoardEntries(order, was), ed), k)
      && !Saves(SnapsOf(WindowEntries(order, was), ed), k)
      && !Saves(SnapsOf(TableEntries(order, was), ed), k)
  {
    ViewsAreSampled(order, was);
    SnapsAndStaleOf(BoardEntries(order, was), ed);
    SnapsAndStaleOf(WindowEntries(order, was), ed);
    SnapsAndStaleOf(TableEntries(order, was), ed);
    if k in was && InLoopedView(k) && PatchedEntry(k, was[k], ed, true) != was[k] {
      RewrittenIsSnapshotted(k, was[k], ed);
      VisitedIff(order, was, k);
      assert Snapshot(k, was[k]).key == k;
    }
  }

  lemma RewrittenIsSnapshotted(k: Key, e: Entry, ed: Edit)
    requires InLoopedView(k) && PatchedEntry(k, e, ed, true) != e
    ensures Snapshotted(k, e, ed)
  {
    if IsWindow(k, e) && LastById(PageIssues(e.pages), ed.id).None? {
      NoCopyNoPatch(e.pages, ed.id, ed.patch);
    }
    if IsTable(k, e) && LastById(RowIssues(e.rows), ed.id).None? {
      NoRowNoPatch(e.rows, ed.id, ed.patch);
    }
  }

  lemma ThreeWritesAt(e0: Entries, r: Change, was: Entries, k: Key)
    requires e0.Keys == was.Keys
    requires TrueSnapshots(r.prevLists, was) && TrueSnapshots(r.prevFlatLists, was)
    requires TrueSnapshots(r.prevTableRows, was)
    ensures ViewsRestored(e0, r).Keys == was.Keys
    ensures k in was ==>
      ViewsRestored(e0, r)[k] ==
      if Saves(r.prevLists, k) || Saves(r.prevFlatLists, k) || Saves(r.prevTableRows, k) then was[k] else e0[k]
  {
    WriteAllAt(e0, r.prevLists, was, k);
    var e1 := WriteAll(e0, r.prevLists);
    WriteAllAt(e1, r.prevFlatLists, was, k);
    var e2 := WriteAll(e1, r.prevFlatLists);
    WriteAllAt(e2, r.prevTableRows, was, k);
  }

  /** The change's snapshots are true, and save the view k if it is another now. */
  ghost predicate SnapshotsFit(r: Change, was: Entries, now: Entries, k: Key) {
    var saved := Saves(r.prevLists, k) || Saves(r.prevFlatLists, k) || Saves(r.prevTableRows, k);
    && now.Keys == was.Keys
    && TrueSnapshots(r.prevLists, was) && TrueSnapshots(r.prevFlatLists, was) && TrueSnapshots(r.prevTableRows, was)
    && (k in was && InLoopedView(k) && now[k] != was[k] ==> saved)
    && (!InLoopedView(k) ==> !saved)
  }

  lemma LoopedEntry(was: Entries, ed: Edit, k: Key)
    requires k in was && InLoopedView(k)
    ensures Applied(was, ed)[k] == PatchedEntry(k, was[k], ed, true)
  {
  }

  lemma ReportedSnapshotsFit(order: seq<Key>, was: Entries, ed: Edit, r: Change, k: Key)
    requires Distinct(order) && forall j :: j in order <==> j in was
    requires Reports(r, order, was, ed)
    ensures SnapshotsFit(r, was, Applied(was, ed), k)
  {
    SnapshotsOfEdit(order, was, ed, k);
    if k in was && InLoopedView(k) {
      LoopedEntry(was, ed, k);
    }
  }

  lemma ViewsRestoredAt(was: Entries, now: Entries, r: Change, k: Key)
    requires SnapshotsFit(r, was, now, k)
    ensures ViewsRestored(now, r).Keys == was.Keys
    ensures k in was ==> ViewsRestored(now, r)[k] == if InLoopedView(k) then was[k] else now[k]
  {
    ThreeWritesAt(now, r, was, k);
  }

  lemma RolledBackAt(was: Entries, now: Entries, id: string, r: Change, k: Key)
    requires SnapshotsFit(r, was, now, k)
    requires r.prevDetail == DetailOf(was, id)
    requires r.prevInboxList.Some? ==> r.prevInboxList == InboxOf(was, InboxKey)
    ensures RolledBack(now, id, r).Keys == was.Keys
    ensures k in was ==>
      RolledBack(now, id, r)[k] ==
      if InLoopedView(k) || (k == DetailKey(id) && r.prevDetail.Some?) || (k == InboxKey && r.prevInboxList.Some?)
      then was[k] else now[k]
  {
    ViewsRestoredAt(was, now, r, k);
  }

  lemma UntouchedElsewhere(was: Entries, ed: Edit, k: Key)
    requires k in was && !InLoopedView(k) && k != ArchivedInboxKey
    requires k == DetailKey(ed.id) ==> DetailOf(was, ed.id).None?
    requires k == InboxKey ==> ed.patch.status.None? || InboxOf(was, InboxKey).None?
    ensures Applied(was, ed)[k] == was[k]
  {
  }

  /** After an edit and its rollback every entry but the archived inbox is as it
      was; the archived inbox keeps the edited status. */
  lemma RollbackRestores(order: seq<Key>, was: Entries, ed: Edit, r: Change, k: Key)
    requires Distinct(order) && forall j :: j in order <==> j in was
    requires Reports(r, order, was, ed)
    ensures RolledBack(Applied(was, ed), ed.id, r).Keys == was.Keys
    ensures k in was ==>
      RolledBack(Applied(was, ed), ed.id, r)[k] == if k == ArchivedInboxKey then Applied(was, ed)[k] else was[k]
  {
    ReportedSnapshotsFit(order, was, ed, r, k);
    RolledBackAt(was, Applied(was, ed), ed.id, r, k);
    var detailSaved := k == DetailKey(ed.id) && r.prevDetail.Some?;
    var inboxSaved := k == InboxKey && r.prevInboxList.Some?;
    if k in was && !InLoopedView(k) && k != ArchivedInboxKey && !detailSaved && !inboxSaved {
      UntouchedElsewhere(was, ed, k);
    }
  }

  /** The edit will reach an archived item: the inbox list is cached, the patch sets
      a status, and some archived item of the issue has another one. */
  predicate ReachesArchive(was: Entries, ids: set<string>, p: PartialIssue) {
    && p.status.Some?
    && InboxOf(was, InboxKey).Some?
    && InboxOf(was, ArchivedInboxKey).Some?
    && exists item <- was[ArchivedInboxKey].items ::
         item.issueId.Some? && item.issueId.value in ids && item.issueStatus != p.status
  }

  lemma ArchiveKeptIff(was: Entries, ed: Edit)
    requires ArchivedInboxKey in was
    ensures Applied(was, ed)[ArchivedInboxKey] == was[ArchivedInboxKey] <==> !ReachesArchive(was, {ed.id}, ed.patch)
  {
    var e := was[ArchivedInboxKey];
    if e.Inbox? && ed.patch.status.Some? {
      var items := InboxStatus(e.items, ed.id, ed.patch.status.value);
      if item :| item in e.items && item.issueId == Some(ed.id) && item.issueStatus != ed.patch.status {
        var k :| 0 <= k < |e.items| && e.items[k] == item;
        assert items[k] != e.items[k];
      } else {
        assert items == e.items;
      }
    }
  }

  /** The undoing is exact if and only if the edit reaches no archived item. */
  lemma RollbackIsExactIff(order: seq<Key>, was: Entries, ed: Edit, r: Change)
    requires Distinct(order) && forall j :: j in order <==> j in was
    requires Reports(r, order, was, ed)
    ensures RolledBack(Applied(was, ed), ed.id, r) == was <==> !ReachesArchive(was, {ed.id}, ed.patch)
  {
    var back := RolledBack(Applied(was, ed), ed.id, r);
    forall k: Key
      ensures back.Keys == was.Keys
      ensures k in was ==> back[k] == if k == ArchivedInboxKey then Applied(was, ed)[k] else was[k]
    {
      RollbackRestores(order, was, ed, r, k);
    }
    if ArchivedInboxKey in was {
      ArchiveKeptIff(was, ed);
    }
  }

  /** An edit whose request fails. */
  method FailedEdit(qc: QueryClient, ed: Edit)
    requires qc.Valid()
    modifies qc`order, qc`entries
    ensures qc.Valid()
    ensures qc.entries == old(qc.entries) <==> !ReachesArchive(old(qc.entries), {ed.id}, ed.patch)
  {
    var change := ApplyIssueChange(qc, ed);
    RollbackIssueChange(qc, ed.id, change);
    RollbackIsExactIff(old(qc.order), old(qc.entries), ed, change);
  }
}
