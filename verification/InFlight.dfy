/** Edits in flight: an edit fails after later edits were made, and is rolled back
    under them (packages/core/issues/mutations.ts, useUpdateIssue). */
module InFlight {
  import opened IssueTypes
  import opened Membership
  import opened Buckets
  import opened BucketLaws
  import opened QueryCache
  import opened Coordinator
  import opened CoordinatorLaws
  import opened ApplyChange
  import opened Rollback
  import opened IssueOrder
  import opened FlatWindows
  import opened Coherence

  // Later edits ----------------------------------------------------------------------

  function LaterEntry(k: Key, e: Entry, later: seq<Edit>, inboxLoaded: bool): Entry {
    if later == [] then e
    else PatchedEntry(k, LaterEntry(k, e, later[..|later| - 1], inboxLoaded), later[|later| - 1], inboxLoaded)
  }

  predicate InboxLoaded(entries: Entries) {
    InboxOf(entries, InboxKey).Some?
  }

  function LaterApplied(entries: Entries, later: seq<Edit>): Entries {
    map k | k in entries :: LaterEntry(k, entries[k], later, InboxLoaded(entries))
  }

  // Rolling back under them ----------------------------------------------------------

  /** The change has a snapshot of key k. */
  ghost predicate Held(r: Change, id: string, k: Key) {
    || Saves(r.prevLists, k) || Saves(r.prevFlatLists, k) || Saves(r.prevTableRows, k)
    || (k == DetailKey(id) && r.prevDetail.Some?)
    || (k == InboxKey && r.prevInboxList.Some?)
  }

  /** The change's snapshots are of the cache as it was. */
  ghost predicate Remembers(r: Change, was: Entries, id: string, k: Key) {
    && TrueSnapshots(r.prevLists, was) && TrueSnapshots(r.prevFlatLists, was) && TrueSnapshots(r.prevTableRows, was)
    && r.prevDetail == DetailOf(was, id)
    && (r.prevInboxList.Some? ==> r.prevInboxList == InboxOf(was, InboxKey))
    && (!InLoopedView(k) ==> !Saves(r.prevLists, k) && !Saves(r.prevFlatLists, k) && !Saves(r.prevTableRows, k))
  }

  lemma ReportedIsRemembered(order: seq<Key>, was: Entries, ed: Edit, r: Change, k: Key)
    requires Distinct(order) && forall j :: j in order <==> j in was
    requires Reports(r, order, was, ed)
    ensures Remembers(r, was, ed.id, k)
    ensures k in was && k != ArchivedInboxKey && !Held(r, ed.id, k) ==> Applied(was, ed)[k] == was[k]
  {
    ReportedSnapshotsFit(order, was, ed, r, k);
    if k in was && k != ArchivedInboxKey && !Held(r, ed.id, k) && !InLoopedView(k) {
      UntouchedElsewhere(was, ed, k);
    }
  }

  /** Whatever the cache holds by now, the rollback puts the snapshots back and leaves
      the rest. */
  lemma RolledBackHeld(was: Entries, now: Entries, id: string, r: Change, k: Key)
    requires now.Keys == was.Keys && Remembers(r, was, id, k)
    ensures RolledBack(now, id, r).Keys == was.Keys
    ensures k in was ==> RolledBack(now, id, r)[k] == if Held(r, id, k) then was[k] else now[k]
  {
    ThreeWritesAt(now, r, was, k);
  }

  lemma UnchangedGoesAlike(was: Entries, ed: Edit, later: seq<Edit>, k: Key)
    requires k in was && Applied(was, ed)[k] == was[k]
    ensures LaterApplied(Applied(was, ed), later)[k] == LaterApplied(was, later)[k]
  {
    AppliedKeepsInbox(was, ed);
    SameEntryGoesAlike(was, Applied(was, ed), later, k);
  }

  lemma SameEntryGoesAlike(was: Entries, now: Entries, later: seq<Edit>, k: Key)
    requires k in was && k in now && now[k] == was[k] && InboxLoaded(now) == InboxLoaded(was)
    ensures LaterApplied(now, later)[k] == LaterApplied(was, later)[k]
  {
  }

  lemma AppliedKeepsInbox(entries: Entries, ed: Edit)
    ensures InboxLoaded(Applied(entries, ed)) == InboxLoaded(entries)
  {
  }

  /** Rolling the edit back under later edits gives, at every key but the archived
      inbox, what the later edits alone would have given if and only if they leave
      what the edit has a snapshot of; what they changed there is lost. */
  lemma LateRollbackIff(order: seq<Key>, was: Entries, ed: Edit, r: Change, later: seq<Edit>, k: Key)
    requires Distinct(order) && forall j :: j in order <==> j in was
    requires Reports(r, order, was, ed)
    ensures
      var back := RolledBack(LaterApplied(Applied(was, ed), later), ed.id, r);
      var without := LaterApplied(was, later);
      && back.Keys == without.Keys == was.Keys
      && (k in was && k != ArchivedInboxKey ==>
            (back[k] == without[k] <==> (Held(r, ed.id, k) ==> without[k] == was[k])))
  {
    var now := LaterApplied(Applied(was, ed), later);
    ReportedIsRemembered(order, was, ed, r, k);
    assert now.Keys == was.Keys;
    RolledBackHeld(was, now, ed.id, r, k);
    if k in was && k != ArchivedInboxKey && !Held(r, ed.id, k) {
      UnchangedGoesAlike(was, ed, later, k);
    }
  }

  // Coherence ------------------------------------------------------------------------

  /** Two states of a view that differ at most in the issue a. */
  ghost predicate AgreeOff(k: Key, e: Entry, f: Entry, a: string) {
    && (IsBoard(k, e) <==> IsBoard(k, f)) && (IsWindow(k, e) <==> IsWindow(k, f))
    && (IsBoard(k, e) ==> Shaped(e.cache) && Shaped(f.cache) && SameOff(Contents(e.cache), Contents(f.cache), a))
    && (IsWindow(k, e) ==>
          forall id | id != a :: LastById(PageIssues(e.pages), id) == LastById(PageIssues(f.pages), id))
  }

  ghost predicate SameOff(m: map<string, Issue>, n: map<string, Issue>, a: string) {
    forall id | id != a :: (id in m <==> id in n) && (id in m ==> m[id] == n[id])
  }

  lemma FindByContents(c: ListCache, id: string)
    requires Shaped(c)
    ensures
      FindIssueLocation(c, id) ==
      if id in Contents(c) then Some(Location(Contents(c)[id].status, Contents(c)[id])) else None
  {
    Found(c, id);
    if id in Contents(c) {
      LoadedIsFound(c, Contents(c)[id]);
      FoundBucket(c, id);
    }
  }

  /** The plain map behind a board after the board's step. */
  function NextContents(k: Key, m: map<string, Issue>, ed: Edit): map<string, Issue> {
    var t := ListContractFromKey(k);
    if ed.id !in m then m
    else
      var j := Merge(m[ed.id], ed.patch);
      if ListFilterDependsOn(t.scope, t.filter, ed.changed) && Guess(t, j) == No then m - {ed.id} else m[ed.id := j]
  }

  lemma BoardStepContents(k: Key, c: ListCache, ed: Edit)
    requires Shaped(c) && ed.patch.id.GetOr(ed.id) == ed.id
    ensures Shaped(BoardStep(k, c, ed).next)
    ensures Contents(BoardStep(k, c, ed).next) == NextContents(k, Contents(c), ed)
  {
    Found(c, ed.id);
    BoardStepKeepsShape(k, c, ed);
    if ed.id in Contents(c) {
      LoadedStepShifts(ListContractFromKey(k), c, ed);
    } else {
      SameLoadedSameContents(c, BoardStep(k, c, ed).next);
    }
  }

  lemma SameLoadedSameContents(c: ListCache, d: ListCache)
    requires Shaped(c) && Shaped(d) && forall i :: Loaded(c, i) <==> Loaded(d, i)
    ensures Contents(c) == Contents(d)
  {
    forall id
      ensures id in Contents(c) <==> id in Contents(d)
      ensures id in Contents(c) ==> Contents(c)[id] == Contents(d)[id]
    {
      HeldIsLoaded(c, id);
      HeldIsLoaded(d, id);
      if id in Contents(c) {
        LoadedIsFound(d, Contents(c)[id]);
      }
      if id in Contents(d) {
        LoadedIsFound(c, Contents(d)[id]);
      }
    }
  }

  lemma HeldIsLoaded(c: ListCache, id: string)
    requires Shaped(c)
    ensures id in Contents(c) ==> Contents(c)[id].id == id && Loaded(c, Contents(c)[id])
  {
    Found(c, id);
    if id in Contents(c) {
      FoundBucket(c, id);
    }
  }

  lemma NextContentsAgree(k: Key, m: map<string, Issue>, n: map<string, Issue>, ed: Edit, a: string)
    requires SameOff(m, n, a) && ed.id != a
    ensures SameOff(NextContents(k, m, ed), NextContents(k, n, ed), a)
  {
  }

  lemma StaleAgree(k: Key, c: ListCache, d: ListCache, ed: Edit)
    requires FindIssueLocation(c, ed.id) == FindIssueLocation(d, ed.id)
    ensures BoardStep(k, c, ed).stale == BoardStep(k, d, ed).stale
  {
  }

  lemma BoardsAgree(k: Key, c: ListCache, d: ListCache, ed: Edit, a: string)
    requires Shaped(c) && Shaped(d) && SameOff(Contents(c), Contents(d), a)
    requires ed.id != a && ed.patch.id.GetOr(ed.id) == ed.id
    ensures BoardStep(k, c, ed).stale == BoardStep(k, d, ed).stale
    ensures Shaped(BoardStep(k, c, ed).next) && Shaped(BoardStep(k, d, ed).next)
    ensures SameOff(Contents(BoardStep(k, c, ed).next), Contents(BoardStep(k, d, ed).next), a)
  {
    BoardStepContents(k, c, ed);
    BoardStepContents(k, d, ed);
    NextContentsAgree(k, Contents(c), Contents(d), ed, a);
    FindByContents(c, ed.id);
    FindByContents(d, ed.id);
    StaleAgree(k, c, d, ed);
  }

  lemma BoardDiffersOnlyIn(k: Key, c: ListCache, ed: Edit)
    requires Shaped(c) && ed.patch.id.GetOr(ed.id) == ed.id
    ensures Shaped(BoardStep(k, c, ed).next)
    ensures SameOff(Contents(c), Contents(BoardStep(k, c, ed).next), ed.id)
  {
    BoardStepContents(k, c, ed);
    NextDiffersOnlyIn(k, Contents(c), ed);
  }

  lemma NextDiffersOnlyIn(k: Key, m: map<string, Issue>, ed: Edit)
    ensures SameOff(m, NextContents(k, m, ed), ed.id)
  {
  }

  /** Patching in place gives every id the last copy it had, patched if it is meant. */
  lemma {:induction false} LastAfterPatch(issues: seq<Issue>, id: string, p: PartialIssue, x: string)
    requires p.id.GetOr(id) == id
    ensures
      LastById(PatchInPlace(issues, id, p), x) ==
      var last := LastById(issues, x);
      if x == id && last.Some? then Some(Merge(last.value, p)) else last
  {
    if issues == [] {
    } else {
      var n := |issues| - 1;
      LastAfterPatch(issues[..n], id, p, x);
      assert PatchInPlace(issues, id, p)[..n] == PatchInPlace(issues[..n], id, p);
    }
  }

  lemma PatchKeepsAgreement(k: Key, e: Entry, f: Entry, ed: Edit, a: string, inboxLoaded: bool)
    requires AgreeOff(k, e, f, a) && ed.id != a && ed.patch.id.GetOr(ed.id) == ed.id
    ensures AgreeOff(k, PatchedEntry(k, e, ed, inboxLoaded), PatchedEntry(k, f, ed, inboxLoaded), a)
    ensures StaleEntry(k, e, ed) == StaleEntry(k, f, ed)
  {
    if IsBoard(k, e) {
      BoardsAgree(k, e.cache, f.cache, ed, a);
    } else if IsWindow(k, e) {
      PatchedPageIssues(e.pages, ed.id, ed.patch);
      PatchedPageIssues(f.pages, ed.id, ed.patch);
      forall id | id != a
        ensures LastById(PatchInPlace(PageIssues(e.pages), ed.id, ed.patch), id)
             == LastById(PatchInPlace(PageIssues(f.pages), ed.id, ed.patch), id)
      {
        LastAfterPatch(PageIssues(e.pages), ed.id, ed.patch, id);
        LastAfterPatch(PageIssues(f.pages), ed.id, ed.patch, id);
      }
    }
  }

  lemma EditDiffersOnlyIn(k: Key, e: Entry, ed: Edit, inboxLoaded: bool)
    requires (IsBoard(k, e) ==> Shaped(e.cache)) && ed.patch.id.GetOr(ed.id) == ed.id
    ensures AgreeOff(k, e, PatchedEntry(k, e, ed, inboxLoaded), ed.id)
  {
    if IsBoard(k, e) {
      BoardDiffersOnlyIn(k, e.cache, ed);
    } else if IsWindow(k, e) {
      PatchedPageIssues(e.pages, ed.id, ed.patch);
      forall id | id != ed.id
        ensures LastById(PageIssues(e.pages), id) == LastById(PatchInPlace(PageIssues(e.pages), ed.id, ed.patch), id)
      {
        LastAfterPatch(PageIssues(e.pages), ed.id, ed.patch, id);
      }
    }
  }

  function Later(s: State, later: seq<Edit>): (r: State)
    requires forall ed <- later :: ed.id in s.world
    ensures r.world.Keys == s.world.Keys
  {
    if later == [] then s else Performed(Later(s, later[..|later| - 1]), later[|later| - 1])
  }

  /** Later edits are to other issues and each is proper where the failing edit was
      never made. */
  ghost predicate ProperLater(b: Backend, l: Locale, watch: Watch, s: State, later: seq<Edit>, a: string)
    requires forall ed <- later :: ed.id in s.world
  {
    later != [] ==>
      var last := later[|later| - 1];
      && ProperLater(b, l, watch, s, later[..|later| - 1], a)
      && last.id != a && ProperEdit(b, l, watch, Later(s, later[..|later| - 1]), last)
  }

  lemma {:induction false} LaterEntries(s: State, later: seq<Edit>)
    requires forall ed <- later :: ed.id in s.world
    ensures Later(s, later).entries == LaterApplied(s.entries, later)
  {
    if later == [] {
    } else {
      LaterEntries(s, later[..|later| - 1]);
      assert InboxLoaded(LaterApplied(s.entries, later[..|later| - 1])) == InboxLoaded(s.entries) by {
        LaterKeepsInbox(s.entries, later[..|later| - 1]);
      }
    }
  }

  lemma LaterKeepsInbox(entries: Entries, later: seq<Edit>)
    ensures InboxLoaded(LaterApplied(entries, later)) == InboxLoaded(entries)
  {
    if InboxKey in entries {
      InboxStaysInbox(InboxKey, entries[InboxKey], later, InboxLoaded(entries));
    }
  }

  lemma {:induction false} InboxStaysInbox(k: Key, e: Entry, later: seq<Edit>, inboxLoaded: bool)
    requires k == InboxKey
    ensures LaterEntry(k, e, later, inboxLoaded).Inbox? == e.Inbox?
  {
    if later == [] {
    } else {
      InboxStaysInbox(k, e, later[..|later| - 1], inboxLoaded);
    }
  }

  lemma {:induction false} LaterStaysCoherent(
      b: Backend, l: Locale, watch: Watch, s: State, later: seq<Edit>, a: string)
    requires forall ed <- later :: ed.id in s.world
    requires CoherentState(b, l, watch, s) && ProperLater(b, l, watch, s, later, a)
    ensures CoherentState(b, l, watch, Later(s, later))
  {
    if later == [] {
    } else {
      LaterStaysCoherent(b, l, watch, s, later[..|later| - 1], a);
      EditKeepsCoherent(b, l, watch, Later(s, later[..|later| - 1]), later[|later| - 1]);
    }
  }

  /** With and without the failing edit the later edits go alike: the view differs in
      its issue only, and is stale with it where it is stale without. */
  ghost predicate GoesAlike(s: State, t: State, a: string, k: Key) {
    && k in s.entries && k in t.entries && InboxLoaded(s.entries) == InboxLoaded(t.entries)
    && AgreeOff(k, s.entries[k], t.entries[k], a)
    && (k in s.stale ==> k in t.stale)
  }

  lemma StepGoesAlike(s: State, t: State, ed: Edit, a: string, k: Key)
    requires ed.id in s.world && ed.id in t.world && GoesAlike(s, t, a, k)
    requires ed.id != a && ed.patch.id.GetOr(ed.id) == ed.id
    ensures GoesAlike(Performed(s, ed), Performed(t, ed), a, k)
  {
    PerformedAt(s, ed, k);
    PerformedAt(t, ed, k);
    PatchKeepsAgreement(k, s.entries[k], t.entries[k], ed, a, InboxLoaded(s.entries));
  }

  lemma PerformedAt(s: State, ed: Edit, k: Key)
    requires ed.id in s.world && k in s.entries
    ensures
      var next := Performed(s, ed);
      && k in next.entries && next.entries[k] == PatchedEntry(k, s.entries[k], ed, InboxLoaded(s.entries))
      && InboxLoaded(next.entries) == InboxLoaded(s.entries)
      && (k in next.stale <==> k in s.stale || StaleEntry(k, s.entries[k], ed))
  {
    AppliedKeepsInbox(s.entries, ed);
  }

  lemma {:induction false} LaterAgree(
      b: Backend, l: Locale, watch: Watch, s: State, t: State, later: seq<Edit>, a: string, k: Key)
    requires (forall ed <- later :: ed.id in s.world) && s.world.Keys == t.world.Keys
    requires ProperLater(b, l, watch, s, later, a) && GoesAlike(s, t, a, k)
    ensures GoesAlike(Later(s, later), Later(t, later), a, k)
  {
    if later == [] {
    } else {
      var init, last := later[..|later| - 1], later[|later| - 1];
      LaterAgree(b, l, watch, s, t, init, a, k);
      StepGoesAlike(Later(s, init), Later(t, init), last, a, k);
    }
  }

  lemma FirstDiffers(s: State, ed: Edit, k: Key)
    requires ed.id in s.world && k in s.entries && ed.patch.id.GetOr(ed.id) == ed.id
    requires IsBoard(k, s.entries[k]) ==> Shaped(s.entries[k].cache)
    ensures GoesAlike(s, Performed(s, ed), ed.id, k)
  {
    PerformedAt(s, ed, k);
    EditDiffersOnlyIn(k, s.entries[k], ed, InboxLoaded(s.entries));
  }

  /** The later edits change nothing the change has a snapshot of. */
  ghost predicate LeavesHeld(entries: Entries, r: Change, id: string, later: seq<Edit>) {
    forall k <- entries :: Held(r, id, k) ==> LaterEntry(k, entries[k], later, InboxLoaded(entries)) == entries[k]
  }

  /** What coherence asks of one view. */
  ghost predicate CoherentAt(b: Backend, l: Locale, watch: Watch, world: World, k: Key, e: Entry, stale: set<Key>) {
    Sound(world, k, e) && (watch(k) && k !in stale ==> Current(b, l, world, k, e))
  }

  lemma InboxIsCoherent(b: Backend, l: Locale, watch: Watch, world: World, e: Entry, stale: set<Key>)
    ensures CoherentAt(b, l, watch, world, ArchivedInboxKey, e, stale)
  {
  }

  /** An edit that fails after later edits to other issues: a view is coherent after
      the rollback, for the world in which only they were made, unless they changed it
      and the edit has a snapshot of it. Other views may have lost what they like. */
  lemma LateRollbackIsCoherentAt(
      b: Backend, l: Locale, watch: Watch, s: State, ed: Edit, r: Change, later: seq<Edit>, k: Key)
    requires CoherentState(b, l, watch, s) && Informed(s.world, ed)
    requires Distinct(s.order) && (forall j :: j in s.order <==> j in s.entries) && Reports(r, s.order, s.entries, ed)
    requires (forall x <- later :: x.id in s.world) && ProperLater(b, l, watch, s, later, ed.id)
    requires k in s.entries
    requires k != ArchivedInboxKey && Held(r, ed.id, k) ==> LaterApplied(s.entries, later)[k] == s.entries[k]
    ensures
      var failed := Later(Performed(s, ed), later);
      var back := RolledBack(failed.entries, ed.id, r);
      && back.Keys == s.entries.Keys
      && CoherentAt(b, l, watch, Later(s, later).world, k, back[k], failed.stale)
  {
    var without, failed := Later(s, later), Later(Performed(s, ed), later);
    BackIsWithout(s, ed, r, later, k);
    if k == ArchivedInboxKey {
      InboxIsCoherent(b, l, watch, without.world, RolledBack(failed.entries, ed.id, r)[k], failed.stale);
    } else {
      LaterStaysCoherent(b, l, watch, s, later, ed.id);
      StaleWithoutIsStale(b, l, watch, s, ed, later, k);
      LessStaleIsCoherent(b, l, watch, without, k, failed.stale);
    }
  }

  /** In particular the whole cache is coherent if the later edits left everything the
      edit has a snapshot of. */
  lemma LateRollbackIsCoherent(
      b: Backend, l: Locale, watch: Watch, s: State, ed: Edit, r: Change, later: seq<Edit>)
    requires CoherentState(b, l, watch, s) && Informed(s.world, ed)
    requires Distinct(s.order) && (forall k :: k in s.order <==> k in s.entries) && Reports(r, s.order, s.entries, ed)
    requires (forall x <- later :: x.id in s.world) && ProperLater(b, l, watch, s, later, ed.id)
    requires LeavesHeld(s.entries, r, ed.id, later)
    ensures
      var failed := Later(Performed(s, ed), later);
      Coherent(b, l, watch, Later(s, later).world, RolledBack(failed.entries, ed.id, r), failed.stale)
  {
    var without, failed := Later(s, later), Later(Performed(s, ed), later);
    var back := RolledBack(failed.entries, ed.id, r);
    LaterStaysCoherent(b, l, watch, s, later, ed.id);
    LaterEntries(s, later);
    LaterEntries(Performed(s, ed), later);
    LateRollbackIff(s.order, s.entries, ed, r, later, InboxKey);
    forall k | k in back
      ensures CoherentAt(b, l, watch, without.world, k, back[k], failed.stale)
    {
      LateRollbackIsCoherentAt(b, l, watch, s, ed, r, later, k);
    }
    EverywhereCoherent(b, l, watch, without.world, back, failed.stale);
  }

  lemma BackIsWithout(s: State, ed: Edit, r: Change, later: seq<Edit>, k: Key)
    requires ed.id in s.world && forall x <- later :: x.id in s.world
    requires Distinct(s.order) && (forall j :: j in s.order <==> j in s.entries) && Reports(r, s.order, s.entries, ed)
    requires k in s.entries
    requires k != ArchivedInboxKey && Held(r, ed.id, k) ==> LaterApplied(s.entries, later)[k] == s.entries[k]
    ensures
      var back := RolledBack(Later(Performed(s, ed), later).entries, ed.id, r);
      && back.Keys == Later(s, later).entries.Keys == s.entries.Keys
      && (k != ArchivedInboxKey ==> back[k] == Later(s, later).entries[k])
  {
    LaterEntries(s, later);
    LaterEntries(Performed(s, ed), later);
    LateRollbackIff(s.order, s.entries, ed, r, later, k);
  }

  lemma StaleWithoutIsStale(b: Backend, l: Locale, watch: Watch, s: State, ed: Edit, later: seq<Edit>, k: Key)
    requires CoherentState(b, l, watch, s) && Informed(s.world, ed) && k in s.entries
    requires (forall x <- later :: x.id in s.world) && ProperLater(b, l, watch, s, later, ed.id)
    ensures k in Later(s, later).stale ==> k in Later(Performed(s, ed), later).stale
  {
    assert Sound(s.world, k, s.entries[k]);
    FirstDiffers(s, ed, k);
    LaterAgree(b, l, watch, s, Performed(s, ed), later, ed.id, k);
  }

  lemma LessStaleIsCoherent(b: Backend, l: Locale, watch: Watch, s: State, k: Key, stale: set<Key>)
    requires CoherentState(b, l, watch, s) && k in s.entries && (k in s.stale ==> k in stale)
    ensures CoherentAt(b, l, watch, s.world, k, s.entries[k], stale)
  {
  }

  lemma EverywhereCoherent(b: Backend, l: Locale, watch: Watch, world: World, entries: Entries, stale: set<Key>)
    requires Keyed(world) && forall k <- entries :: CoherentAt(b, l, watch, world, k, entries[k], stale)
    ensures Coherent(b, l, watch, world, entries, stale)
  {
  }
}
