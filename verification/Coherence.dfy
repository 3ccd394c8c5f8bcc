/** What a cached view owes its reader, and that one edit, one property or label event,
    one creation or one deletion leaves every view with it. */
module Coherence {
  import opened IssueTypes
  import opened Membership
  import opened Buckets
  import opened BucketLaws
  import opened QueryCache
  import opened Coordinator
  import opened CoordinatorLaws
  import opened IssueOrder
  import opened FlatWindows
  import opened BatchUpdate
  import opened WsUpdates
  import opened FieldHandlers
  import opened DeleteCache
  import opened DeleteLaws
  import opened CreateIssue

  ghost predicate TrueCopies(world: World, issues: seq<Issue>) {
    forall i <- issues :: i.id in world && world[i.id] == i
  }

  ghost predicate TrueWhereAlive(world: World, issues: seq<Issue>) {
    forall i <- issues :: i.id in world ==> world[i.id] == i
  }

  ghost predicate LoadedTrue(world: World, c: ListCache) {
    forall i :: Loaded(c, i) ==> i.id in world && world[i.id] == i
  }

  /** What an entry owes the reader, stale or not: true copies, and on a board each
      in the bucket of its status. Boards of the "my" family are not reached by the
      field handlers, nor table rows by a deletion, so their copies are promised only
      while they are not stale, and those of issues that exist. */
  ghost predicate Sound(world: World, k: Key, e: Entry) {
    && (IsBoard(k, e) ==> Shaped(e.cache) && (k.BoardKey? ==> LoadedTrue(world, e.cache)))
    && (IsWindow(k, e) ==> TrueCopies(world, PageIssues(e.pages)))
    && (IsTable(k, e) ==> TrueWhereAlive(world, RowIssues(e.rows)))
    && (k.DetailKey? && e.IssueData? ==> e.issue.id == k.id && TrueCopies(world, [e.issue]))
  }

  /** What it owes while it is not marked stale: exact totals over true copies of
      listed issues on a board, the order in a flat window, true rows in a table. */
  ghost predicate Current(b: Backend, l: Locale, world: World, k: Key, e: Entry) {
    && (IsBoard(k, e) ==> Accurate(b, world, ListContractFromKey(k), e.cache))
    && (IsWindow(k, e) ==> StrictlySorted(l, PageIssues(e.pages), k.sort))
    && (IsTable(k, e) ==> TrueCopies(world, RowIssues(e.rows)))
  }

  /** The views whose promise is kept, which a reader may choose. */
  type Watch = Key -> bool

  ghost predicate Coherent(b: Backend, l: Locale, watch: Watch, world: World, entries: Entries, stale: set<Key>) {
    && Keyed(world)
    && (forall k <- entries :: Sound(world, k, entries[k]))
    && (forall k <- entries :: watch(k) && k !in stale ==> Current(b, l, world, k, entries[k]))
  }

  /** A change of issue i to j that the coordinator need not see at this view: the
      board's window hides it as before; a window in custom-property order has its
      other issues on the same sides. */
  ghost predicate HarmlessAt(b: Backend, l: Locale, k: Key, e: Entry, i: Issue, j: Issue) {
    && (IsBoard(k, e) ==> Hidden(b, ListContractFromKey(k), i) == Hidden(b, ListContractFromKey(k), j))
    && (IsWindow(k, e) && k.sort.sortBy.GetOr(ByPosition).ByProperty? ==>
          SameSides(l, PageIssues(e.pages), i, j, k.sort))
  }

  /** The list's window lets every issue through: it has no date range and no
      property filter. */
  ghost predicate Open(b: Backend, k: Key) {
    forall i: Issue :: b.passes(ListContractFromKey(k).sort, i)
  }

  /** Every change is harmless on boards with open windows and in windows with a
      built-in sort, and every change that keeps the property values in the others. */
  lemma OpenIsHarmless(b: Backend, l: Locale, k: Key, e: Entry, i: Issue, j: Issue)
    requires IsBoard(k, e) ==> Open(b, k)
    requires IsWindow(k, e) && k.sort.sortBy.GetOr(ByPosition).ByProperty? ==>
      i.id == j.id && i.createdAt == j.createdAt && i.properties.values == j.properties.values
    ensures HarmlessAt(b, l, k, e, i, j)
  {
    if IsBoard(k, e) {
      assert b.passes(ListContractFromKey(k).sort, i) && b.passes(ListContractFromKey(k).sort, j);
    }
    if IsWindow(k, e) && k.sort.sortBy.GetOr(ByPosition).ByProperty? {
      SameValuesSameSides(l, PageIssues(e.pages), i, j, k.sort);
    }
  }

  // The cache beside the world ----------------------------------------------------------

  datatype State = State(world: World, order: seq<Key>, entries: Entries, stale: set<Key>)

  function Performed(s: State, ed: Edit): State
    requires ed.id in s.world
  {
    State(Edited(s.world, ed), s.order, Applied(s.entries, ed), s.stale + StaleKeys(s.entries, ed))
  }

  ghost predicate CoherentState(b: Backend, l: Locale, watch: Watch, s: State) {
    Coherent(b, l, watch, s.world, s.entries, s.stale)
  }

  // One edit ---------------------------------------------------------------------------

  lemma BatchEditIsInformed(world: World, entries: Entries, id: string, p: PartialIssue)
    requires Keyed(world) && (forall k <- entries :: Sound(world, k, entries[k]))
    requires id in world && KeepsIdentity(p, world[id])
    ensures Informed(world, BatchEdit(entries, id, p))
  {
    var base := DetailOf(entries, id);
    if base.Some? {
      assert Sound(world, DetailKey(id), entries[DetailKey(id)]);
      assert base.value in [base.value];
    }
    ChangedDimsCover(p, base, world[id]);
  }

  /** Any copy the handler of a server event may find is a true one. */
  lemma CopiesAreTrue(world: World, entries: Entries, id: string, i: Issue)
    requires (forall k <- entries :: Sound(world, k, entries[k])) && HasCopy(entries, id, i)
    ensures id in world && world[id] == i
  {
    if DetailOf(entries, id) == Some(i) {
      assert Sound(world, DetailKey(id), entries[DetailKey(id)]);
      assert i in [i];
    } else if k :| k in entries && FoundInBoard(k, entries[k], id, i) {
      assert Sound(world, k, entries[k]);
      FoundBucket(entries[k].cache, id);
    } else {
      var k :| k in entries && FoundInWindow(k, entries[k], i);
      assert Sound(world, k, entries[k]);
    }
  }

  /** An announced change is a proper edit exactly when its flags are honest, if the
      handler finds a copy, and exactly when its dimensions miss nothing, if not. */
  lemma AnnouncementIsInformedIff(
      world: World, order: seq<Key>, entries: Entries, id: string, p: PartialIssue, flags: Flags)
    requires Keyed(world) && (forall k <- entries :: Sound(world, k, entries[k]))
    requires id in world && KeepsIdentity(p, world[id])
    ensures
      var ed, j := AnnouncedEdit(order, entries, id, p, flags), Merge(world[id], p);
      && (ed.base.Some? ==> ed.base.value == world[id])
      && (Informed(world, ed)
          <==> if ed.base.Some? then Honest(flags, world[id], j)
               else Covers(AnnouncedDims(p, None, flags), world[id], j))
  {
    CachedIssueIsACopy(order, entries, id);
    var cached := CachedIssue(order, entries, id);
    if cached.Some? {
      CopiesAreTrue(world, entries, id, cached.value);
      CachedDimsCoverIff(p, world[id], flags);
    }
  }

  /** What the server announces of request req is a proper edit, where the issue is
      cached, exactly when the request clears neither assignee nor project. */
  lemma ServerAnnouncementIsInformedIff(
      world: World, order: seq<Key>, entries: Entries, id: string, req: PartialIssue, p: PartialIssue)
    requires Keyed(world) && (forall k <- entries :: Sound(world, k, entries[k]))
    requires id in world && KeepsIdentity(p, world[id]) && CachedIssue(order, entries, id).Some?
    requires SameDims(Merge(world[id], p), Merge(world[id], req))
    ensures
      Informed(world, AnnouncedEdit(order, entries, id, p, ServerFlags(req, world[id], Merge(world[id], req))))
      <==> !ClearsAssignee(req, world[id]) && !ClearsProject(req, world[id])
  {
    AnnouncementIsInformedIff(world, order, entries, id, p, ServerFlags(req, world[id], Merge(world[id], req)));
    ServerFlagsHonestIff(req, world[id]);
  }

  /** An issue that was unassigned, or taken out of its project, elsewhere: a board
      that shows it and no longer lists it keeps it, under wrong totals and without a
      report unless it is sorted by the update time. */
  lemma ClearingIsLost(b: Backend, world: World, k: Key, c: ListCache,
                       order: seq<Key>, entries: Entries, id: string, req: PartialIssue, p: PartialIssue)
    requires Accurate(b, world, ListContractFromKey(k), c)
    requires Keyed(world) && id in world && KeepsIdentity(p, world[id]) && Loaded(c, world[id])
    requires SameDims(Merge(world[id], p), Merge(world[id], req))
    requires req.status.None? && !SetsAssignee(req) && !Sets(req.projectId)
    requires !Listed(b, ListContractFromKey(k), Merge(world[id], p))
    ensures
      var ed := AnnouncedEdit(order, entries, id, p, ServerFlags(req, world[id], Merge(world[id], req)));
      var step := BoardStep(k, c, ed);
      && Loaded(step.next, Merge(world[id], p))
      && (step.stale ==> ListContractFromKey(k).sort.sortBy == Some(ByUpdatedAt))
      && !TotalsExact(b, Edited(world, ed), ListContractFromKey(k), step.next)
  {
    var ed := AnnouncedEdit(order, entries, id, p, ServerFlags(req, world[id], Merge(world[id], req)));
    UnflaggedTotalsIff(b, world, k, c, ed);
    LoadedIsFound(c, world[id]);
    Found(c, id);
    FoundBucket(c, id);
    LoadedStepShifts(ListContractFromKey(k), c, ed);
    LoadedIsFound(BoardStep(k, c, ed).next, Merge(world[id], p));
    Found(BoardStep(k, c, ed).next, id);
  }

  /** The edit a success reply makes: the whole issue without its property bag, under
      the dimensions of the intent against the reply. */
  function ReplyEdit(intent: PartialIssue, reply: Issue): Edit {
    Edit(reply.id, Whole(reply).(properties := None), IssueChangedDims(intent, Some(reply)), Some(reply))
  }

  /** A reply is a proper edit exactly when the issue was left, optimistically, where
      the server has put it: same owner, status, project, and creation facts. */
  lemma ReplyIsInformedIff(world: World, intent: PartialIssue, reply: Issue)
    requires Keyed(world) && reply.id in world
    ensures
      Informed(world, ReplyEdit(intent, reply))
      <==> SameDims(reply, world[reply.id]) && reply.createdAt == world[reply.id].createdAt
  {
  }

  lemma PatchedCopiesAreTrue(world: World, issues: seq<Issue>, ed: Edit)
    requires Informed(world, ed) && TrueCopies(world, issues)
    ensures TrueCopies(Edited(world, ed), PatchInPlace(issues, ed.id, ed.patch))
  {
    forall i <- PatchInPlace(issues, ed.id, ed.patch)
      ensures i.id in Edited(world, ed) && Edited(world, ed)[i.id] == i
    {
      var k :| 0 <= k < |issues| && PatchInPlace(issues, ed.id, ed.patch)[k] == i;
      assert issues[k] in issues;
    }
  }

  lemma EditKeepsLoadedTrue(world: World, k: Key, c: ListCache, ed: Edit)
    requires Informed(world, ed) && Shaped(c) && LoadedTrue(world, c)
    ensures Shaped(BoardStep(k, c, ed).next) && LoadedTrue(Edited(world, ed), BoardStep(k, c, ed).next)
  {
    var next := BoardStep(k, c, ed).next;
    BoardStepKeepsShape(k, c, ed);
    Found(c, ed.id);
    if FindIssueLocation(c, ed.id).Some? {
      FoundBucket(c, ed.id);
      LoadedStepShifts(ListContractFromKey(k), c, ed);
    }
    forall i | Loaded(next, i)
      ensures i.id in world && Edited(world, ed)[i.id] == i
    {
      LoadedIsFound(next, i);
      LoadedIsFound(c, i);
      if i.id != ed.id {
        assert Loaded(c, i);
      }
    }
  }

  lemma EditKeepsSound(world: World, k: Key, e: Entry, ed: Edit, inboxLoaded: bool)
    requires Informed(world, ed) && Sound(world, k, e)
    ensures Sound(Edited(world, ed), k, PatchedEntry(k, e, ed, inboxLoaded))
  {
    if IsBoard(k, e) {
      if k.BoardKey? {
        EditKeepsLoadedTrue(world, k, e.cache, ed);
      } else {
        BoardStepKeepsShape(k, e.cache, ed);
      }
    } else if IsWindow(k, e) {
      PatchedCopiesAreTrue(world, PageIssues(e.pages), ed);
      PatchedPageIssues(e.pages, ed.id, ed.patch);
    } else if IsTable(k, e) {
      PatchedRowsAreTrue(world, e.rows, ed);
    } else if k.DetailKey? && e.IssueData? {
      assert e.issue in [e.issue];
    }
  }

  lemma PatchedRowsAreTrue(world: World, rows: seq<Row>, ed: Edit)
    requires Informed(world, ed) && TrueWhereAlive(world, RowIssues(rows))
    ensures TrueWhereAlive(Edited(world, ed), RowIssues(PatchRows(rows, ed.id, ed.patch)))
    ensures TrueCopies(world, RowIssues(rows)) ==>
      TrueCopies(Edited(world, ed), RowIssues(PatchRows(rows, ed.id, ed.patch)))
  {
    var issues := RowIssues(rows);
    assert RowIssues(PatchRows(rows, ed.id, ed.patch)) == PatchInPlace(issues, ed.id, ed.patch);
    forall i <- PatchInPlace(issues, ed.id, ed.patch)
      ensures i.id in Edited(world, ed) ==> Edited(world, ed)[i.id] == i
    {
      var n :| 0 <= n < |issues| && PatchInPlace(issues, ed.id, ed.patch)[n] == i;
      assert issues[n] in issues;
    }
    if TrueCopies(world, issues) {
      PatchedCopiesAreTrue(world, issues, ed);
    }
  }

  lemma EditKeepsWindow(b: Backend, l: Locale, world: World, k: Key, e: Entry, ed: Edit)
    requires Informed(world, ed) && IsWindow(k, e)
    requires TrueCopies(world, PageIssues(e.pages)) && StrictlySorted(l, PageIssues(e.pages), k.sort)
    requires !StaleEntry(k, e, ed) && HarmlessAt(b, l, k, e, world[ed.id], Merge(world[ed.id], ed.patch))
    ensures StrictlySorted(l, PageIssues(PatchPages(e.pages, ed.id, ed.patch)), k.sort)
  {
    var issues := PageIssues(e.pages);
    PatchedPageIssues(e.pages, ed.id, ed.patch);
    var copy := LastById(issues, ed.id);
    if copy.Some? {
      WindowStaysSorted(l, k, e.pages, ed, copy.value);
    } else {
      assert PatchInPlace(issues, ed.id, ed.patch) == issues;
    }
  }

  lemma EditKeepsCurrent(b: Backend, l: Locale, world: World, k: Key, e: Entry, ed: Edit, inboxLoaded: bool)
    requires Informed(world, ed) && Sound(world, k, e) && Current(b, l, world, k, e)
    requires !StaleEntry(k, e, ed) && HarmlessAt(b, l, k, e, world[ed.id], Merge(world[ed.id], ed.patch))
    ensures Current(b, l, Edited(world, ed), k, PatchedEntry(k, e, ed, inboxLoaded))
  {
    if IsBoard(k, e) {
      BoardStaysAccurate(b, world, k, e.cache, ed);
    } else if IsWindow(k, e) {
      EditKeepsWindow(b, l, world, k, e, ed);
    } else if IsTable(k, e) {
      PatchedRowsAreTrue(world, e.rows, ed);
    }
  }

  /** Every watched view that is neither stale nor reported takes the change well. */
  ghost predicate Harmless(b: Backend, l: Locale, watch: Watch, s: State, reported: set<Key>, i: Issue, j: Issue) {
    forall k <- s.entries :: watch(k) && k !in s.stale && k !in reported ==> HarmlessAt(b, l, k, s.entries[k], i, j)
  }

  lemma EditKeepsCoherent(b: Backend, l: Locale, watch: Watch, s: State, ed: Edit)
    requires CoherentState(b, l, watch, s) && Informed(s.world, ed)
    requires Harmless(b, l, watch, s, StaleKeys(s.entries, ed), s.world[ed.id], Merge(s.world[ed.id], ed.patch))
    ensures CoherentState(b, l, watch, Performed(s, ed))
  {
    var inboxLoaded := InboxOf(s.entries, InboxKey).Some?;
    var next := Performed(s, ed);
    forall k | k in s.entries
      ensures Sound(next.world, k, next.entries[k])
      ensures watch(k) && k !in next.stale ==> Current(b, l, next.world, k, next.entries[k])
    {
      EditKeepsSound(s.world, k, s.entries[k], ed, inboxLoaded);
      if watch(k) && k !in next.stale {
        EditKeepsCurrent(b, l, s.world, k, s.entries[k], ed, inboxLoaded);
      }
    }
  }

  /** The edit is informed and harmless where it is not reported. For an edit of this
      client the first is given; an announcement has to flag what the client cannot
      see, and a reply to confirm where the issue was put. */
  ghost predicate ProperEdit(b: Backend, l: Locale, watch: Watch, s: State, ed: Edit) {
    && Informed(s.world, ed)
    && Harmless(b, l, watch, s, StaleKeys(s.entries, ed), s.world[ed.id], Merge(s.world[ed.id], ed.patch))
  }

  // One field --------------------------------------------------------------------------

  function FieldEdit(id: string, f: Field): Edit {
    Edit(id, FieldPatch(f), ChangedDims(false, false, false), None)
  }

  lemma FieldKeepsBoard(world: World, c: ListCache, id: string, f: Field)
    requires Keyed(world) && id in world && Shaped(c) && LoadedTrue(world, c)
    ensures
      var next := PatchIssueInBuckets(c, id, FieldPatch(f));
      && Shaped(next) && LoadedTrue(Edited(world, FieldEdit(id, f)), next)
      && forall i :: Loaded(next, i) ==> if i.id == id then Loaded(c, world[id]) else Loaded(c, i)
  {
    var next := PatchIssueInBuckets(c, id, FieldPatch(f));
    FieldKeepsTotals(c, id, f);
    forall i | Loaded(next, i)
      ensures i.id in world && Edited(world, FieldEdit(id, f))[i.id] == i
      ensures if i.id == id then Loaded(c, world[id]) else Loaded(c, i)
    {
      LoadedIsFound(next, i);
      LoadedIsFound(c, i);
      if i.id == id {
        Found(c, id);
        FoundBucket(c, id);
      }
    }
  }

  lemma FieldKeepsAccurate(b: Backend, world: World, k: Key, c: ListCache, id: string, f: Field)
    requires Keyed(world) && id in world && Accurate(b, world, ListContractFromKey(k), c)
    requires
      var t := ListContractFromKey(k);
      Hidden(b, t, world[id]) == Hidden(b, t, Merge(world[id], FieldPatch(f)))
    ensures
      Accurate(b, Edited(world, FieldEdit(id, f)), ListContractFromKey(k), PatchIssueInBuckets(c, id, FieldPatch(f)))
  {
    var t, i, j := ListContractFromKey(k), world[id], Merge(world[id], FieldPatch(f));
    FieldKeepsTotalsIff(b, world, t, c, id, f);
    FieldKeepsBoard(world, c, id, f);
    assert OwnershipOf(i) == OwnershipOf(j);
    assert Listed(b, t, i) <==> Listed(b, t, j);
  }

  lemma FieldKeepsSound(world: World, k: Key, e: Entry, id: string, f: Field)
    requires Keyed(world) && id in world && Sound(world, k, e)
    ensures Sound(Edited(world, FieldEdit(id, f)), k, HandledEntry(k, e, id, FieldPatch(f)))
  {
    var ed := FieldEdit(id, f);
    if k.BoardKey? && e.Board? {
      FieldKeepsBoard(world, e.cache, id, f);
    } else if IsWindow(k, e) {
      PatchedCopiesAreTrue(world, PageIssues(e.pages), ed);
      PatchedPageIssues(e.pages, id, ed.patch);
    } else if IsTable(k, e) {
      PatchedRowsAreTrue(world, e.rows, ed);
    } else if k.DetailKey? && e.IssueData? {
      assert e.issue in [e.issue];
    }
  }

  lemma FieldKeepsCurrent(b: Backend, l: Locale, world: World, k: Key, e: Entry, id: string, f: Field)
    requires Keyed(world) && id in world && Sound(world, k, e) && Current(b, l, world, k, e) && !Invalidated(k, f)
    requires HarmlessAt(b, l, k, e, world[id], Merge(world[id], FieldPatch(f)))
    ensures Current(b, l, Edited(world, FieldEdit(id, f)), k, HandledEntry(k, e, id, FieldPatch(f)))
  {
    if IsBoard(k, e) {
      FieldKeepsAccurate(b, world, k, e.cache, id, f);
    } else if IsWindow(k, e) {
      var copy := LastById(PageIssues(e.pages), id);
      if copy.Some? {
        LeftAloneStaysSorted(l, k, e.pages, copy.value, f);
      } else {
        PatchedPageIssues(e.pages, id, FieldPatch(f));
        assert PatchInPlace(PageIssues(e.pages), id, FieldPatch(f)) == PageIssues(e.pages);
      }
    }
  }

  function FieldPerformed(s: State, id: string, f: Field): State
    requires id in s.world
  {
    State(Edited(s.world, FieldEdit(id, f)), s.order, Handled(s.entries, id, FieldPatch(f)),
          s.stale + InvalidatedKeys(s.entries, f))
  }

  lemma FieldKeepsCoherent(b: Backend, l: Locale, watch: Watch, s: State, id: string, f: Field)
    requires CoherentState(b, l, watch, s) && id in s.world
    requires Harmless(b, l, watch, s, InvalidatedKeys(s.entries, f), s.world[id], Merge(s.world[id], FieldPatch(f)))
    ensures CoherentState(b, l, watch, FieldPerformed(s, id, f))
  {
    var next := FieldPerformed(s, id, f);
    forall k | k in s.entries
      ensures Sound(next.world, k, next.entries[k])
      ensures watch(k) && k !in next.stale ==> Current(b, l, next.world, k, next.entries[k])
    {
      FieldKeepsSound(s.world, k, s.entries[k], id, f);
      if watch(k) && k !in next.stale {
        FieldKeepsCurrent(b, l, s.world, k, s.entries[k], id, f);
      }
    }
  }

  // One creation -----------------------------------------------------------------------

  function CreationPerformed(s: State, issue: Issue, own: bool): State {
    State(s.world[issue.id := issue], s.order, Created(s.entries, issue),
          s.stale + CreationKeys(s.entries, issue, own))
  }

  /** The server gives an id once: an issue that is there already is the announced
      one, and rows that still show the id show it. */
  ghost predicate FreshId(world: World, entries: Entries, issue: Issue) {
    && (issue.id in world ==> world[issue.id] == issue)
    && forall k <- entries :: IsTable(k, entries[k]) ==>
         forall i <- RowIssues(entries[k].rows) :: i.id == issue.id ==> i == issue
  }

  /** The board counts the issue in exactly if it is new to the list. */
  ghost predicate WelcomeAt(b: Backend, world: World, k: Key, e: Entry, issue: Issue) {
    IsBoard(k, e) ==> (CountedIn(k, e.cache, issue) <==> Enters(b, world, ListContractFromKey(k), issue))
  }

  lemma CreationKeepsSound(world: World, entries: Entries, k: Key, issue: Issue)
    requires FreshId(world, entries, issue) && k in entries && Sound(world, k, entries[k])
    ensures Sound(world[issue.id := issue], k, CreatedEntry(k, entries[k], issue))
  {
    if k.BoardKey? && entries[k].Board? {
      AddedOnce(k, entries[k].cache, issue);
    }
  }

  lemma CreationKeepsCurrent(
      b: Backend, l: Locale, world: World, entries: Entries, k: Key, issue: Issue, own: bool)
    requires FreshId(world, entries, issue) && k in entries && Current(b, l, world, k, entries[k])
    requires !CreationInvalidates(k, issue, own) && WelcomeAt(b, world, k, entries[k], issue)
    ensures Current(b, l, world[issue.id := issue], k, CreatedEntry(k, entries[k], issue))
  {
    if IsBoard(k, entries[k]) {
      CreationKeepsAccurate(b, world, k, entries[k].cache, issue);
    }
  }

  lemma CreationKeepsCoherent(b: Backend, l: Locale, watch: Watch, s: State, issue: Issue, own: bool)
    requires CoherentState(b, l, watch, s) && FreshId(s.world, s.entries, issue)
    requires forall k <- s.entries ::
      watch(k) && k !in s.stale && !CreationInvalidates(k, issue, own) ==>
        WelcomeAt(b, s.world, k, s.entries[k], issue)
    ensures CoherentState(b, l, watch, CreationPerformed(s, issue, own))
  {
    var next := CreationPerformed(s, issue, own);
    forall k | k in s.entries
      ensures Sound(next.world, k, next.entries[k])
      ensures watch(k) && k !in next.stale ==> Current(b, l, next.world, k, next.entries[k])
    {
      CreationKeepsSound(s.world, s.entries, k, issue);
      if watch(k) && k !in next.stale {
        CreationKeepsCurrent(b, l, s.world, s.entries, k, issue, own);
      }
    }
  }

  // One deletion -----------------------------------------------------------------------

  /** What the cleanup invalidates among the views that owe anything. */
  predicate DeletionInvalidates(k: Key) {
    k.BoardKey? || k.MyBoardKey? || k.MyGroupsKey? || k.FlatKey? || k.FlatExportKey? || k.TableKey?
  }

  function DeletionPerformed(s: State, id: string): State {
    var next := Cleaned(s.entries, id, ParentsOf(s.entries, id));
    State(s.world - {id}, Others(s.order, (k: Key) => OwnEntry(k, id)), next,
          s.stale + set k | k in next && DeletionInvalidates(k))
  }

  lemma {:induction false} WithoutHas(issues: seq<Issue>, id: string)
    ensures forall i :: i in Without(issues, id) <==> i in issues && i.id != id
  {
    if issues == [] {
    } else {
      WithoutHas(issues[1..], id);
      assert issues == [issues[0]] + issues[1..];
    }
  }

  lemma RemovedStaysTrue(world: World, c: ListCache, id: string)
    requires Shaped(c) && LoadedTrue(world, c)
    ensures LoadedTrue(world - {id}, RemoveIssueFromBuckets(c, id))
  {
    var next := RemoveIssueFromBuckets(c, id);
    RemoveIsDelete(c, id);
    forall i | Loaded(next, i)
      ensures i.id in world - {id} && world[i.id] == i
    {
      LoadedIsFound(next, i);
      LoadedIsFound(c, i);
    }
  }

  lemma DeletionKeepsSound(world: World, k: Key, e: Entry, id: string, parents: set<string>)
    requires Sound(world, k, e) && !OwnEntry(k, id)
    ensures Sound(world - {id}, k, PrunedEntry(k, e, id, parents))
  {
    if (k.BoardKey? || k.MyBoardKey?) && e.Board? {
      RemoveIsDelete(e.cache, id);
      if k.BoardKey? {
        RemovedStaysTrue(world, e.cache, id);
      }
    } else if IsWindow(k, e) {
      WindowForgets(e, id);
      WithoutHas(PageIssues(e.pages), id);
    } else if k.DetailKey? && e.IssueData? {
      assert e.issue in [e.issue];
    }
  }

  /** After a deletion every board, window and table is stale, and all but the rows
      show only issues that exist. */
  lemma DeletionKeepsCoherent(b: Backend, l: Locale, watch: Watch, s: State, id: string)
    requires CoherentState(b, l, watch, s)
    ensures CoherentState(b, l, watch, DeletionPerformed(s, id))
  {
    var next := DeletionPerformed(s, id);
    forall k | k in next.entries
      ensures Sound(next.world, k, next.entries[k])
      ensures watch(k) && k !in next.stale ==> Current(b, l, next.world, k, next.entries[k])
    {
      DeletionKeepsSound(s.world, k, s.entries[k], id, ParentsOf(s.entries, id));
    }
  }
}
