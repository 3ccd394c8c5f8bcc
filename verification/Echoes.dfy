/** Edits that confirm what this client has done already: success replies, and the
    server's announcements of the client's own edits. */
module Echoes {
  import opened IssueTypes
  import opened Membership
  import opened Buckets
  import opened BucketLaws
  import opened QueryCache
  import opened Coordinator
  import opened CoordinatorLaws
  import opened IssueOrder
  import opened FlatWindows
  import opened BatchUpdate
  import opened WsUpdates
  import opened DeleteLaws
  import opened Coherence

  // Confirmations -----------------------------------------------------------------------------

  /** The patch leaves state i of the issue where it is filed. */
  predicate Settles(p: PartialIssue, i: Issue) {
    SameDims(Merge(i, p), i) && Merge(i, p).position == i.position
  }

  /** The buckets with the copies of the issue refreshed where they stand. */
  ghost predicate Refreshed(c: ListCache, next: ListCache, id: string, p: PartialIssue) {
    forall s: Status ::
      && GetBucket(next, s).total == GetBucket(c, s).total
      && GetBucket(next, s).issues == PatchInPlace(GetBucket(c, s).issues, id, p)
  }

  lemma AbsentStaysRefreshed(issues: seq<Issue>, id: string, p: PartialIssue)
    requires forall i <- issues :: i.id != id
    ensures PatchInPlace(issues, id, p) == issues
  {
  }

  lemma UnloadedConfirmation(t: Contract, c: ListCache, ed: Edit)
    requires ed.base.Some? ==> Settles(ed.patch, ed.base.value)
    ensures UnloadedStep(t, c, ed).next == c
  {
    if ed.base.Some? {
      SameDimsSameGuess(t, Merge(ed.base.value, ed.patch), ed.base.value, EMPTY_PATCH);
    }
  }

  lemma PatchRefreshes(c: ListCache, id: string, p: PartialIssue)
    requires Shaped(c) && p.id.GetOr(id) == id && FindIssueLocation(c, id).Some?
    requires Settles(p, FindIssueLocation(c, id).value.issue)
    ensures Refreshed(c, PatchIssueInBuckets(c, id, p), id, p)
  {
    PatchIsRehome(c, id, p);
    FoundBucket(c, id);
    var loc := FindIssueLocation(c, id).value;
    forall s: Status
      ensures s != loc.status ==> PatchInPlace(GetBucket(c, s).issues, id, p) == GetBucket(c, s).issues
    {
      if s != loc.status {
        AbsentFrom(c, id, s);
        AbsentStaysRefreshed(GetBucket(c, s).issues, id, p);
      }
    }
    OnlyCopy(GetBucket(c, loc.status).issues, loc.issue, p);
  }

  lemma OnlyCopy(issues: seq<Issue>, copy: Issue, p: PartialIssue)
    requires UniqueIds(issues) && copy in issues
    ensures ReplaceById(issues, copy.id, Merge(copy, p)) == PatchInPlace(issues, copy.id, p)
  {
    forall k | 0 <= k < |issues| && issues[k].id == copy.id
      ensures issues[k] == copy
    {
      UniqueMembers(issues, issues[k], copy);
    }
  }

  /** An edit that confirms where the issue is filed, whatever else it brings and
      whatever dimensions it claims, only refreshes copies on a board: nothing moves,
      leaves or is counted again. A copy the list's own filter refuses is left out. */
  lemma ConfirmationOnlyRefreshes(k: Key, c: ListCache, ed: Edit)
    requires Shaped(c) && ed.patch.id.GetOr(ed.id) == ed.id
    requires ed.base.Some? ==> Settles(ed.patch, ed.base.value)
    requires
      var found := FindIssueLocation(c, ed.id);
      found.Some? ==> Settles(ed.patch, found.value.issue) && Guess(ListContractFromKey(k), found.value.issue) != No
    ensures Refreshed(c, BoardStep(k, c, ed).next, ed.id, ed.patch)
  {
    var t := ListContractFromKey(k);
    Found(c, ed.id);
    if FindIssueLocation(c, ed.id).Some? {
      var copy := FindIssueLocation(c, ed.id).value.issue;
      SameDimsSameGuess(t, Merge(copy, ed.patch), copy, EMPTY_PATCH);
      PatchRefreshes(c, ed.id, ed.patch);
    } else {
      UnloadedConfirmation(t, c, ed);
      forall s: Status
        ensures PatchInPlace(GetBucket(c, s).issues, ed.id, ed.patch) == GetBucket(c, s).issues
      {
        AbsentStaysRefreshed(GetBucket(c, s).issues, ed.id, ed.patch);
      }
    }
  }

  /** A board that shows true copies of listed issues takes a success reply, or an
      announcement of the whole issue, as a refresh if the server left the issue where
      the client had put it. */
  lemma ReplyOnlyRefreshes(b: Backend, world: World, k: Key, c: ListCache, ed: Edit)
    requires Accurate(b, world, ListContractFromKey(k), c) && Informed(world, ed)
    requires Settles(ed.patch, world[ed.id]) && (ed.base.Some? ==> Settles(ed.patch, ed.base.value))
    ensures Refreshed(c, BoardStep(k, c, ed).next, ed.id, ed.patch)
  {
    var t := ListContractFromKey(k);
    if FindIssueLocation(c, ed.id).Some? {
      FoundBucket(c, ed.id);
      assert Listed(b, t, world[ed.id]);
      DefiniteAnswersAreRight(b.server, Whole(world[ed.id]), world[ed.id], t.scope, t.filter);
    }
    ConfirmationOnlyRefreshes(k, c, ed);
  }

  /** A view with the copies of the issue refreshed where they stand. */
  ghost predicate RefreshedAt(k: Key, e: Entry, next: Entry, id: string, p: PartialIssue) {
    if IsBoard(k, e) then next.Board? && Refreshed(e.cache, next.cache, id, p)
    else if IsWindow(k, e) then
      next.Window? && next == e.(pages := next.pages) &&
      PageIssues(next.pages) == PatchInPlace(PageIssues(e.pages), id, p)
    else if IsTable(k, e) then
      next.Table? && next == e.(rows := next.rows) && RowIssues(next.rows) == PatchInPlace(RowIssues(e.rows), id, p)
    else if k == DetailKey(id) && e.IssueData? then next == IssueData(Merge(e.issue, p))
    else next == e || (e.Inbox? && p.status.Some? && next == Inbox(InboxStatus(e.items, id, p.status.value)))
  }

  /** In a coherent cache an edit that confirms where the issue is filed, as the
      announcement of this client's own edit with the whole issue and a new update time
      does, only refreshes copies, in every view that is watched and not stale and in
      every view that is no board. */
  lemma ConfirmationRefreshesEverywhere(b: Backend, l: Locale, watch: Watch, s: State, ed: Edit, k: Key)
    requires CoherentState(b, l, watch, s) && Informed(s.world, ed) && k in s.entries
    requires Settles(ed.patch, s.world[ed.id]) && (ed.base.Some? ==> Settles(ed.patch, ed.base.value))
    requires IsBoard(k, s.entries[k]) ==> watch(k) && k !in s.stale
    ensures RefreshedAt(k, s.entries[k], Applied(s.entries, ed)[k], ed.id, ed.patch)
  {
    var e := s.entries[k];
    if IsBoard(k, e) {
      assert Current(b, l, s.world, k, e);
      ReplyOnlyRefreshes(b, s.world, k, e.cache, ed);
    } else if IsWindow(k, e) {
      PatchedPageIssues(e.pages, ed.id, ed.patch);
    } else if IsTable(k, e) {
      assert RowIssues(PatchRows(e.rows, ed.id, ed.patch)) == PatchInPlace(RowIssues(e.rows), ed.id, ed.patch);
    }
  }

  // Echoes ------------------------------------------------------------------------------------

  /** A second edit with the same patch, whose base has absorbed the patch already
      and whose dimensions claim no more than the first edit's. */
  ghost predicate Echoes(again: Edit, ed: Edit) {
    && again.id == ed.id && again.patch == ed.patch
    && (again.base.Some? ==> Merge(again.base.value, ed.patch) == again.base.value)
    && (again.changed.assignee ==> ed.changed.assignee)
    && (again.changed.project ==> ed.changed.project)
  }

  lemma MissingStays(t: Contract, c: ListCache, ed: Edit, again: Edit)
    requires Echoes(again, ed)
    ensures UnloadedStep(t, c, again).next == c
  {
  }

  lemma BoardEchoChangesNothing(k: Key, c: ListCache, ed: Edit, again: Edit)
    requires Shaped(c) && ed.patch.id.GetOr(ed.id) == ed.id && Echoes(again, ed)
    ensures BoardStep(k, BoardStep(k, c, ed).next, again).next == BoardStep(k, c, ed).next
  {
    var t := ListContractFromKey(k);
    var next := BoardStep(k, c, ed).next;
    Found(c, ed.id);
    Found(next, ed.id);
    MissingStays(t, next, ed, again);
    if FindIssueLocation(c, ed.id).Some? {
      var i := FindIssueLocation(c, ed.id).value.issue;
      var j := Merge(i, ed.patch);
      LoadedStepShifts(t, c, ed);
      PatchIsIdempotent(c, ed.id, ed.patch);
      SpreadDescribes(None, i, ed.patch);
      if ed.id in Contents(next) {
        assert Contents(next)[ed.id] == j;
        assert LoadedStep(t, next, j, again).next == PatchIssueInBuckets(next, ed.id, ed.patch);
      }
    } else {
      BoardStepKeepsShape(k, c, ed);
      if FindIssueLocation(next, ed.id).Some? {
        FoundBucket(next, ed.id);
        LoadedIsFound(c, FindIssueLocation(next, ed.id).value.issue);
      }
    }
  }

  lemma MergeTwice(i: Issue, p: PartialIssue)
    ensures Merge(Merge(i, p), p) == Merge(i, p)
  {
    SpreadDescribes(None, i, p);
  }

  lemma EntryEchoChangesNothing(k: Key, e: Entry, ed: Edit, again: Edit, inboxLoaded: bool)
    requires IsBoard(k, e) ==> Shaped(e.cache)
    requires ed.patch.id.GetOr(ed.id) == ed.id && Echoes(again, ed)
    ensures
      var once := PatchedEntry(k, e, ed, inboxLoaded);
      PatchedEntry(k, once, again, inboxLoaded) == once
  {
    if IsBoard(k, e) {
      BoardEchoChangesNothing(k, e.cache, ed, again);
    } else if IsWindow(k, e) {
      PagesEcho(e.pages, ed.id, ed.patch);
    } else if IsTable(k, e) {
      RowsEcho(e.rows, ed.id, ed.patch);
    } else if k == DetailKey(ed.id) && e.IssueData? {
      MergeTwice(e.issue, ed.patch);
    } else if e.Inbox? && ed.patch.status.Some? {
      var once := InboxStatus(e.items, ed.id, ed.patch.status.value);
      assert InboxStatus(once, ed.id, ed.patch.status.value) == once;
    }
  }

  lemma PatchEcho(issues: seq<Issue>, id: string, p: PartialIssue)
    ensures PatchInPlace(PatchInPlace(issues, id, p), id, p) == PatchInPlace(issues, id, p)
  {
    forall k | 0 <= k < |issues|
      ensures Merge(Merge(issues[k], p), p) == Merge(issues[k], p)
    {
      MergeTwice(issues[k], p);
    }
  }

  lemma PagesEcho(pages: seq<Page>, id: string, p: PartialIssue)
    ensures PatchPages(PatchPages(pages, id, p), id, p) == PatchPages(pages, id, p)
  {
    forall k | 0 <= k < |pages|
      ensures PatchInPlace(PatchInPlace(pages[k].issues, id, p), id, p) == PatchInPlace(pages[k].issues, id, p)
    {
      PatchEcho(pages[k].issues, id, p);
    }
  }

  lemma RowsEcho(rows: seq<Row>, id: string, p: PartialIssue)
    ensures PatchRows(PatchRows(rows, id, p), id, p) == PatchRows(rows, id, p)
  {
    forall k | 0 <= k < |rows|
      ensures Merge(Merge(rows[k].issue, p), p) == Merge(rows[k].issue, p)
    {
      MergeTwice(rows[k].issue, p);
    }
  }

  /** Whatever copy the handler finds after the change has absorbed the patch. */
  lemma CopiesHaveAbsorbed(entries: Entries, ed: Edit, i: Issue)
    requires forall k <- entries :: IsBoard(k, entries[k]) ==> Shaped(entries[k].cache)
    requires ed.patch.id.GetOr(ed.id) == ed.id && HasCopy(Applied(entries, ed), ed.id, i)
    ensures Merge(i, ed.patch) == i
  {
    var once := Applied(entries, ed);
    if DetailOf(once, ed.id) == Some(i) {
      MergeTwice(DetailOf(entries, ed.id).value, ed.patch);
    } else if k :| k in once && FoundInBoard(k, once[k], ed.id, i) {
      assert IsBoard(k, entries[k]);
      BoardCopyHasAbsorbed(k, entries[k].cache, ed);
    } else {
      var k :| k in once && FoundInWindow(k, once[k], i);
      assert IsWindow(k, entries[k]);
      WindowCopyHasAbsorbed(entries[k].pages, ed, i);
    }
  }

  lemma WindowCopyHasAbsorbed(pages: seq<Page>, ed: Edit, i: Issue)
    requires ed.patch.id.GetOr(ed.id) == ed.id && i.id == ed.id
    requires i in PageIssues(PatchPages(pages, ed.id, ed.patch))
    ensures Merge(i, ed.patch) == i
  {
    PatchedPageIssues(pages, ed.id, ed.patch);
    var issues := PageIssues(pages);
    var n :| 0 <= n < |issues| && PatchInPlace(issues, ed.id, ed.patch)[n] == i;
    MergeTwice(issues[n], ed.patch);
  }

  lemma BoardCopyHasAbsorbed(k: Key, c: ListCache, ed: Edit)
    requires Shaped(c) && ed.patch.id.GetOr(ed.id) == ed.id
    ensures
      var found := FindIssueLocation(BoardStep(k, c, ed).next, ed.id);
      found.Some? ==> Merge(found.value.issue, ed.patch) == found.value.issue
  {
    var next := BoardStep(k, c, ed).next;
    Found(c, ed.id);
    Found(next, ed.id);
    if FindIssueLocation(c, ed.id).Some? {
      LoadedStepShifts(ListContractFromKey(k), c, ed);
      MergeTwice(FindIssueLocation(c, ed.id).value.issue, ed.patch);
    } else {
      BoardStepKeepsShape(k, c, ed);
      if FindIssueLocation(next, ed.id).Some? {
        FoundBucket(next, ed.id);
        LoadedIsFound(c, FindIssueLocation(next, ed.id).value.issue);
      }
    }
  }

  /** The announcement of a change this client has made already, flags included if
      they claim no more than the client saw itself. */
  lemma AnnouncementEchoes(order: seq<Key>, entries: Entries, id: string, p: PartialIssue, flags: Flags)
    requires forall k <- entries :: IsBoard(k, entries[k]) ==> Shaped(entries[k].cache)
    requires p.id.GetOr(id) == id
    requires
      var changed := BatchEdit(entries, id, p).changed;
      (flags.assignee == Some(true) ==> changed.assignee) && (flags.project == Some(true) ==> changed.project)
    ensures
      var ed := BatchEdit(entries, id, p);
      Echoes(AnnouncedEdit(order, Applied(entries, ed), id, p, flags), ed)
  {
    var ed := BatchEdit(entries, id, p);
    var once := Applied(entries, ed);
    var cached := CachedIssue(order, once, id);
    CachedIssueIsACopy(order, once, id);
    if cached.Some? {
      CopiesHaveAbsorbed(entries, ed, cached.value);
    } else {
      assert DetailOf(once, id).None? && DetailOf(entries, id).None?;
    }
  }

  lemma EveryEntryEchoes(entries: Entries, ed: Edit, again: Edit)
    requires forall k <- entries :: IsBoard(k, entries[k]) ==> Shaped(entries[k].cache)
    requires ed.patch.id.GetOr(ed.id) == ed.id && Echoes(again, ed)
    ensures Applied(Applied(entries, ed), again) == Applied(entries, ed)
  {
    var inboxLoaded := InboxOf(entries, InboxKey).Some?;
    var once := Applied(entries, ed);
    assert InboxOf(once, InboxKey).Some? == inboxLoaded;
    forall k | k in entries
      ensures PatchedEntry(k, once[k], again, inboxLoaded) == once[k]
    {
      EntryEchoChangesNothing(k, entries[k], ed, again, inboxLoaded);
    }
  }

  /** An optimistic change followed by the server's announcement of it leaves every
      view as the change alone does. */
  lemma EchoChangesNothing(order: seq<Key>, entries: Entries, id: string, p: PartialIssue, flags: Flags)
    requires forall k <- entries :: IsBoard(k, entries[k]) ==> Shaped(entries[k].cache)
    requires p.id.GetOr(id) == id
    requires
      var changed := BatchEdit(entries, id, p).changed;
      (flags.assignee == Some(true) ==> changed.assignee) && (flags.project == Some(true) ==> changed.project)
    ensures
      var once := Applied(entries, BatchEdit(entries, id, p));
      Applied(once, AnnouncedEdit(order, once, id, p, flags)) == once
  {
    var ed := BatchEdit(entries, id, p);
    AnnouncementEchoes(order, entries, id, p, flags);
    EveryEntryEchoes(entries, ed, AnnouncedEdit(order, Applied(entries, ed), id, p, flags));
  }
}
