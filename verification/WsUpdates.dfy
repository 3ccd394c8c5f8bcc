/** The edit onIssueUpdated makes of a change the server announces
    (packages/core/issues/ws-updaters.ts). */
module WsUpdates {
  import opened IssueTypes
  import opened Membership
  import opened Buckets
  import opened QueryCache
  import opened Coordinator

  /** The flags the event carries; a server may leave any of them out. */
  datatype Flags = Flags(assignee: Option<bool>, status: Option<bool>, project: Option<bool>)

  function AnnouncedDims(p: PartialIssue, cached: Option<Issue>, flags: Flags): ChangedDims {
    ChangedDims(
      if flags.assignee.Some? then flags.assignee.value
      else
        && cached.Some?
        && ((p.assigneeId.Some? && p.assigneeId.value != cached.value.assigneeId)
            || (p.assigneeType.Some? && p.assigneeType.value != cached.value.assigneeType)),
      if flags.project.Some? then flags.project.value
      else
        p.projectId.Some? && p.projectId.value != (if cached.Some? then cached.value.projectId else None),
      if flags.status.Some? then flags.status.value
      else cached.Some? && p.status.Some? && p.status.value != cached.value.status)
  }

  /** No flag denies a difference there is. */
  predicate Honest(flags: Flags, i: Issue, j: Issue) {
    && (flags.assignee == Some(false) ==> i.assigneeId == j.assigneeId && i.assigneeType == j.assigneeType)
    && (flags.project == Some(false) ==> i.projectId == j.projectId)
    && (flags.status == Some(false) ==> i.status == j.status)
  }

  /** With a cached copy the dimensions can be relied on exactly when the flags are
      honest: absent ones are made up for, true ones at worst claim too much. */
  lemma CachedDimsCoverIff(p: PartialIssue, i: Issue, flags: Flags)
    ensures Covers(AnnouncedDims(p, Some(i), flags), i, Merge(i, p)) <==> Honest(flags, i, Merge(i, p))
  {
  }

  /** The request sets the field; a null is decoded like an absent field. */
  predicate Sets<T>(field: Option<Option<T>>) {
    field.Some? && field.value.Some?
  }

  predicate SetsAssignee(req: PartialIssue) {
    Sets(req.assigneeType) || Sets(req.assigneeId)
  }

  /** The flags the server sends along when request req took the issue from i to j
      (server/internal/handler/issue.go). */
  function ServerFlags(req: PartialIssue, i: Issue, j: Issue): Flags {
    Flags(
      Some(SetsAssignee(req) && (i.assigneeType != j.assigneeType || i.assigneeId != j.assigneeId)),
      Some(req.status.Some? && i.status != j.status),
      Some(Sets(req.projectId) && i.projectId != j.projectId))
  }

  /** They never claim a change that is not there, and claim every one the request set. */
  lemma ServerFlagsClaimRightly(req: PartialIssue, i: Issue, j: Issue)
    ensures
      var flags := ServerFlags(req, i, j);
      && (flags.assignee == Some(true) ==> i.assigneeType != j.assigneeType || i.assigneeId != j.assigneeId)
      && (flags.project == Some(true) ==> i.projectId != j.projectId)
      && (flags.status == Some(true) ==> i.status != j.status)
      && flags.assignee.Some? && flags.project.Some? && flags.status.Some?
      && (req.status.Some? && i.status != j.status ==> flags.status == Some(true))
  {
  }

  /** The request clears the assignee or the project and puts nothing in its place. */
  predicate ClearsAssignee(req: PartialIssue, i: Issue) {
    && !SetsAssignee(req)
    && ((req.assigneeType.Some? && i.assigneeType.Some?) || (req.assigneeId.Some? && i.assigneeId.Some?))
  }

  predicate ClearsProject(req: PartialIssue, i: Issue) {
    req.projectId == Some(None) && i.projectId.Some?
  }

  /** The server's flags are honest about every request but those that clear. */
  lemma ServerFlagsHonestIff(req: PartialIssue, i: Issue)
    ensures
      Honest(ServerFlags(req, i, Merge(i, req)), i, Merge(i, req))
      <==> !ClearsAssignee(req, i) && !ClearsProject(req, i)
  {
  }

  /** Without a cached copy they can be relied on for every possible issue exactly
      when each field the event sets is flagged as changed, or is a project that is
      set (an unknown project reads as none). */
  lemma UncachedDimsCoverIff(p: PartialIssue, flags: Flags, some: Issue)
    ensures (forall i :: Covers(AnnouncedDims(p, None, flags), i, Merge(i, p))) <==>
      && (p.assigneeId.Some? || p.assigneeType.Some? ==> flags.assignee == Some(true))
      && (p.status.Some? ==> flags.status == Some(true))
      && (p.projectId.Some? ==> flags.project == Some(true) || (flags.project.None? && p.projectId.value.Some?))
  {
    var d := AnnouncedDims(p, None, flags);
    if forall i :: Covers(d, i, Merge(i, p)) {
      var other := some.(
        assigneeId := if p.assigneeId == Some(None) then Some("") else None,
        assigneeType := if p.assigneeType == Some(None) then Some(Member) else None,
        status := if p.status == Some(Todo) then Done else Todo,
        projectId := if p.projectId == Some(None) then Some("") else None);
      assert Covers(d, other, Merge(other, p));
    }
  }

  // The cached copy -----------------------------------------------------------------

  /** The copy in the board cached first, if that one holds the issue. */
  function CopyInFirstBoard(order: seq<Key>, entries: Entries, id: string): (r: Option<Issue>)
    ensures r.Some? ==> exists k <- entries :: FoundInBoard(k, entries[k], id, r.value)
  {
    var boards := QueriesData(order, entries, (k: Key) => k.BoardKey?);
    if boards == [] || !boards[0].entry.Board? then None
    else
      assert boards[0] in boards;
      var found := FindIssueLocation(boards[0].entry.cache, id);
      assert found.Some? ==> FoundInBoard(boards[0].key, entries[boards[0].key], id, found.value.issue);
      if found.Some? then Some(found.value.issue) else None
  }

  /** The first copy in the flat windows. */
  function CopyInWindows(windows: seq<Snapshot>, id: string): (r: Option<Issue>)
    ensures r.Some? ==>
      r.value.id == id && exists s <- windows :: s.entry.Window? && r.value in PageIssues(s.entry.pages)
  {
    if windows == [] then None
    else
      var found := if windows[0].entry.Window? then FindById(PageIssues(windows[0].entry.pages), id) else None;
      if found.Some? then found else CopyInWindows(windows[1..], id)
  }

  function CachedIssue(order: seq<Key>, entries: Entries, id: string): Option<Issue> {
    Or(DetailOf(entries, id),
       Or(CopyInFirstBoard(order, entries, id),
          CopyInWindows(QueriesData(order, entries, (k: Key) => k.FlatKey?), id)))
  }

  function AnnouncedEdit(order: seq<Key>, entries: Entries, id: string, p: PartialIssue, flags: Flags): Edit {
    var cached := CachedIssue(order, entries, id);
    Edit(id, p, AnnouncedDims(p, cached, flags), cached)
  }

  predicate FoundInBoard(k: Key, e: Entry, id: string, i: Issue) {
    && k.BoardKey? && e.Board?
    && FindIssueLocation(e.cache, id).Some?
    && FindIssueLocation(e.cache, id).value.issue == i
  }

  predicate FoundInWindow(k: Key, e: Entry, i: Issue) {
    IsWindow(k, e) && i in PageIssues(e.pages)
  }

  /** Where a cached copy comes from: the detail, a board or a window. */
  ghost predicate HasCopy(entries: Entries, id: string, i: Issue) {
    || DetailOf(entries, id) == Some(i)
    || (exists k <- entries :: FoundInBoard(k, entries[k], id, i))
    || (i.id == id && exists k <- entries :: FoundInWindow(k, entries[k], i))
  }

  lemma CachedIssueIsACopy(order: seq<Key>, entries: Entries, id: string)
    ensures CachedIssue(order, entries, id).Some? ==> HasCopy(entries, id, CachedIssue(order, entries, id).value)
    ensures DetailOf(entries, id).Some? ==> CachedIssue(order, entries, id) == DetailOf(entries, id)
  {
    var windows := QueriesData(order, entries, (k: Key) => k.FlatKey?);
    var copy := CopyInWindows(windows, id);
    if copy.Some? {
      var s :| s in windows && s.entry.Window? && copy.value in PageIssues(s.entry.pages);
      assert FoundInWindow(s.key, entries[s.key], copy.value);
    }
  }

  lemma {:induction false} WindowsAreSearched(windows: seq<Snapshot>, id: string)
    ensures CopyInWindows(windows, id).None? ==>
      forall s <- windows :: s.entry.Window? ==> forall i <- PageIssues(s.entry.pages) :: i.id != id
  {
    if windows == [] {
    } else {
      WindowsAreSearched(windows[1..], id);
      assert windows == [windows[0]] + windows[1..];
    }
  }

  /** The detail goes before the first board, which goes before the windows, and all
      windows are searched. */
  lemma CachedIssueIsFirst(order: seq<Key>, entries: Entries, id: string)
    requires forall k :: k in order <==> k in entries
    ensures
      var cached := CachedIssue(order, entries, id);
      && (DetailOf(entries, id).Some? ==> cached == DetailOf(entries, id))
      && (DetailOf(entries, id).None? && CopyInFirstBoard(order, entries, id).Some? ==>
            cached == CopyInFirstBoard(order, entries, id))
      && (cached.None? ==>
            forall k <- entries :: IsWindow(k, entries[k]) ==> forall i <- PageIssues(entries[k].pages) :: i.id != id)
  {
    var windows := QueriesData(order, entries, (k: Key) => k.FlatKey?);
    WindowsAreSearched(windows, id);
    if CachedIssue(order, entries, id).None? {
      forall k | k in entries && IsWindow(k, entries[k])
        ensures forall i <- PageIssues(entries[k].pages) :: i.id != id
      {
        assert Snapshot(k, entries[k]) in windows;
      }
    }
  }

  /** It is the first board that counts, and all of it. */
  lemma FirstBoardIsSearched(order: seq<Key>, entries: Entries, id: string)
    requires order != [] && order[0].BoardKey? && order[0] in entries && entries[order[0]].Board?
    ensures CopyInFirstBoard(order, entries, id).None? <==>
      forall s: Status :: forall i <- GetBucket(entries[order[0]].cache, s).issues :: i.id != id
  {
    Found(entries[order[0]].cache, id);
  }
}
