# Verification of the client-side issue cache and its neighbours

This project models, in Dafny, the parts of the client that keep redundant or
concurrent state right without asking the server, and proves what they promise.

**The issue cache.** An issue is shown by status buckets with paginated totals
(boards), flat windows, table rows, a detail entry, children lists and the inbox.
One coordinator patches all of them on an optimistic edit or a server event, and
either keeps a total right or reports the key stale. The modules `IssueTypes`,
`Membership`, `Buckets`, `BucketLaws`, `QueryCache`, `Coordinator`,
`CoordinatorLaws`, `ApplyChange`, `Rollback`, `BatchUpdate`, `IssueOrder`,
`FlatWindows`, `FieldHandlers`, `WsUpdates`, `CreateIssue`, `DeleteCache`, `DeleteLaws`,
`DeleteUndo`, `ChildrenLists`, `Coherence`, `InFlight`, `Echoes` and `CacheRuns` model it. The server is
a set of issues with its own membership rules; the cache is compared with it edit by
edit (`CoordinatorLaws`, `Coherence`) and over whole runs of edits, batches, failed
edits, success replies, server announcements, property and label events, creations,
deletions and refetches (`CacheRuns.RunsStayCoherent`).

**Reading pages.** `Paging` and `RelationMerge`: fetching a flat list page by page
from a server that may change its mind, and merging three relation lists under the
computed order.

**Comment threads.** `Threads`, `Timeline` and `TimelineSearch`: deleting with replies,
resolving a thread, and building the rows of a timeline, for any parent links, cycles
included.

**State machines and stores.** `Reconnect` (the WebSocket client), `Uploads` (the
upload coordinator), `DraftStorage`, `ChatStore`, `DraftRuns` and `RestoreQueue` (chat
drafts and their mirror in storage), `Mentions`, `MentionPicks` and `MentionLinks` (the
mention serializer, the picks that feed it and the links it writes) and `Transcript`
(the task transcript). `Selection` says what filtering a list leaves. What the source updates
in place is a class here (`Reconnect.WSClient`, `Uploads.Coordinator`,
`ChatStore.Store`), each method proved to take the step of a specification function;
the theorems are about runs of those steps.

Where the code does not keep a promise for every input, the exact condition is
proved, in lemmas named `...Iff` or in the contract of the method.

## What the proofs found

- A board with a date window or a property filter can be left with wrong totals and
  not reported stale: an issue the window hides is counted in or out as if it were
  shown (`CoordinatorLaws.BoardTotalsIff`, `CoordinatorLaws.HiddenIssueIsCountedOut`).
- The rollback of an edit or a batch does not bring back the archived inbox, which
  the edit patches without a snapshot (`Rollback.RollbackIsExactIff`); a batch that
  names an issue twice also overwrites that issue's detail snapshot
  (`BatchUpdate.BatchUndoneIff`).
- A later edit that changes what an edit in flight has a snapshot of is lost there when
  that edit fails, until the view is fetched again (`InFlight.LateRollbackIff`).
- An event that carries a whole issue with another property bag is reported to a flat
  window only if the window looks at the update time
  (`FlatWindows.PropertyEditStaleIff`), so a window sorted by that property can be left
  out of order (`FlatWindows.PropertyEditGoesUnnoticed`); exactly when is
  `FlatWindows.PatchedStaysSortedIff`. The handler of property events has no such gap:
  it invalidates every window that sorts or filters by a property, and what it leaves
  alone stays sorted (`FieldHandlers.LeftAloneStaysSorted`).
- The coordinator does not look at the label and property facets of a flat window: an
  admitted issue that changes sides in one of them stays where it was, without a report
  (`FlatWindows.NoReconcileKeepsMembership`). The handlers of property and label events
  in turn do not look at date ranges over the update time
  (`FieldHandlers.LeftAloneMembershipIff`), and a label event leaves windows sorted by
  the update time alone (`FieldHandlers.LeftAloneKeepsKey`).
- A property sort is no order on issues that hold numbers and texts under one property,
  unless numbers sort as texts the way they sort as numbers
  (`IssueOrder.PropertySortIsTransitiveIff`, `IssueOrder.MixedPropertyCycles`).
- An announced creation leaves a board with wrong totals, and no report, where the
  board's window hides the issue, and where the board was fetched since and has it on a
  page that is not loaded; this client's own creation does so to the lists of the "my"
  family that the issue belongs to, until its event arrives
  (`CreateIssue.CreationTotalsIff`).
- A batch that gives its issues a new parent does not invalidate that parent's list of
  children unless one of the issues was in it (`ChildrenLists.BatchKeepsFamiliesIff`),
  and an announced change does not look for the issue in the lists of children, so one
  that is cached nowhere else stays in its old parent's list
  (`ChildrenLists.AnnouncedFamilyIff`).
- A deletion the server refuses puts back every list, so whatever was changed in any of
  them meanwhile is lost (`DeleteUndo.LateUndoIff`).
- Adding an issue whose id is loaded under another status duplicates it
  (`BucketLaws.AddKeepsShapeIff`), and removal then leaves a copy
  (`DeleteLaws.RemovalLeavesCopyIff`).
- The server's update events deny that the assignee or the project changed when the
  request cleared it (`WsUpdates.ServerFlagsHonestIff`), and the client believes the
  flags rather than its cached copy (`WsUpdates.CachedDimsCoverIff`): a board that no
  longer lists the issue keeps it, under wrong totals and, unless it is sorted by the
  update time, without a report (`Coherence.ClearingIsLost`). If the issue is not cached
  every field the event sets has to be flagged (`WsUpdates.UncachedDimsCoverIff`).
- The cleanup after a deletion throws when a grouped response is cached under the
  "my" family (`DeleteCache.CleanupDeletedIssueCaches`) and leaves a children cache
  under the empty parent id alone (`DeleteLaws.NothingShowsDeleted`).
- Threads are equivalence classes of comments, but not when the search starts from an
  id that is no comment (`Threads.ThreadsAgreeIff`). Timeline rows leave out comments
  whose parents form a cycle (`Timeline.AllShownIff`), and the search under an entry is
  endless exactly when some way down from it meets an id twice
  (`TimelineSearch.SearchEndsIff`); under a top-level entry only a repeated id can make
  it so (`TimelineSearch.DistinctIdsEnd`, `Timeline.RepeatedIdNeverEnds`).
- An upload superseded by a newer one under the same id can never be aborted, and an
  aborted request that still resolves is reported as uploaded
  (`Uploads.SupersededIsNeverAborted`, `Uploads.SuccessMayFollowAbort`).
- A mention whose name contains a space makes the serializer give up every link of
  the message (`Mentions.RoundTripIff`). Markers are kept in the order of picking, so
  after typing between mentions, typing over whole mentions and picking, the message
  says what was meant exactly when names and links were picked in the order in which
  they stand (`MentionPicks.PicksServeIff`): one mention typed over costs all the others
  their links (`MentionPicks.ErasingLosesLinks`), so does picking a mention in front of
  one with another name, and namesakes get each other's (`MentionPicks.PickServesIff`,
  `MentionPicks.NamesakesAreSwapped`).
- The legacy migration joins one draft's text with another's attachments exactly when
  the new chat had only one of the two and the agent's slot has the other
  (`DraftStorage.MigrationMixesIff`).
- A transcript with a hole stays incomplete when only its tail is asked for
  (`Transcript.TailCompletesIff`).

## Model

| member | source | states |
|---|---|---|
| Membership.DefiniteAnswersAreRight | packages/core/issues/surface/membership.ts:46-84 | A yes or no about a list, even from a partial issue, is what the server would say of every issue the partial one describes. |
| Membership.WholeIssueUnknownIff | packages/core/issues/surface/membership.ts:46-84 | For a whole issue the answer is unknown exactly under the scope "all" or when only the involved user is left to decide. |
| Membership.ChangedDimsCover | packages/core/issues/surface/membership.ts:12-25 | The changed dimensions miss no difference, and with a base issue report none that is not there. |
| Membership.UntouchedFilterKeepsMembership | packages/core/issues/surface/membership.ts:27-44 | A filter that does not depend on the changed dimensions keeps exactly its members. |
| Buckets.Found | packages/core/issues/cache-helpers.ts:18-28 | Looking an issue up answers for all status buckets at once: a hit lies in the reported bucket, a miss means no bucket has the id. |
| Buckets.LoadedIsFound | packages/core/issues/cache-helpers.ts:18-28 | In a well-formed cache an issue is loaded exactly when it is found under its own status. |
| BucketLaws.RemoveIsDelete | packages/core/issues/cache-helpers.ts:39-47 | Removing deletes the id from the plain id-to-issue map and keeps each id once, in the bucket of its status. |
| BucketLaws.RemoveTotals | packages/core/issues/cache-helpers.ts:39-47 | Removing takes one unit off the total of the issue's status, at most down to zero, and leaves the other totals. |
| BucketLaws.RemoveKeepsCountAndOrder | packages/core/issues/cache-helpers.ts:39-47 | Removing keeps every total at or above the loaded count, and the position order. |
| BucketLaws.AddIsInsert | packages/core/issues/cache-helpers.ts:30-37 | Adding an issue that is not loaded inserts it into the plain map and counts it once, under its status. |
| BucketLaws.AddKeepsShapeIff | packages/core/issues/cache-helpers.ts:30-37 | Adding keeps each id in one bucket exactly when the id is not loaded under another status. |
| BucketLaws.PatchIsUpdate | packages/core/issues/cache-helpers.ts:79-118 | Patching is map update, by the merged issue, across status moves too; an unknown id changes nothing. |
| BucketLaws.PatchMovesTotal | packages/core/issues/cache-helpers.ts:79-118 | A patch moves exactly the issue's own unit of total to its next status. |
| BucketLaws.PatchConservesSum | packages/core/issues/cache-helpers.ts:79-118 | A patch conserves the sum of all totals. |
| BucketLaws.MoveConservesSumIff | packages/core/issues/cache-helpers.ts:49-63 | Moving a unit of total between statuses conserves the sum unless the source counts nothing. |
| BucketLaws.PatchKeepsPositionOrder | packages/core/issues/cache-helpers.ts:73-118 | Buckets sorted by position stay sorted under a patch, moves between statuses included. |
| BucketLaws.PatchIsIdempotent | packages/core/issues/cache-helpers.ts:79-118 | An optimistic patch followed by its echo is one patch. |
| CoordinatorLaws.BoardTotalsIff | packages/core/issues/cache-coordinator.ts:185-244 | From true totals, a board that is not reported stale has the true totals after the edit exactly when the edit does not carry the issue into or out of the list's date or property window, for loaded and unloaded issues and every combination of answers. |
| CoordinatorLaws.BoardOutcomeIff | packages/core/issues/cache-coordinator.ts:185-244 | Reported or not, a board has the true totals after the step exactly when it drops a shown issue just where the list does, or the unit it moves, drops or leaves for an issue it does not show is that of an issue listed accordingly. |
| CoordinatorLaws.BoardStaleIff | packages/core/issues/cache-coordinator.ts:185-244 | No more is reported than has to be: a board exactly if its order may change, or a change of filter or status leaves it unclear whether or where it shows the issue. |
| CoordinatorLaws.BoardWrittenIff | packages/core/issues/cache-coordinator.ts:185-244 | A board is rewritten, and so saved for the rollback, exactly if it shows the issue or the client sees the issue move or leave there. |
| CoordinatorLaws.BoardStaysAccurate | packages/core/issues/cache-coordinator.ts:185-244 | An accurate board (true totals over true copies of listed issues) stays accurate or is reported stale, hiding apart. |
| CoordinatorLaws.BoardStepKeepsShape | packages/core/issues/cache-coordinator.ts:185-244 | Every board step keeps each id once, in the bucket of its status; a step on an unloaded issue changes no loaded one. |
| CoordinatorLaws.HiddenLeaverMiscounts | packages/core/issues/cache-coordinator.ts:208-244 | Every hidden issue that leaves the filter is counted out of a board that never counted it, without a stale report. |
| CoordinatorLaws.HiddenIssueIsCountedOut | packages/core/issues/cache-coordinator.ts:208-244 | A concrete board, world and edit where that happens. |
| CoordinatorLaws.UnflaggedTotalsIff | packages/core/issues/cache-coordinator.ts:185-244 | Under dimensions that deny every change a board is reported only for its order, and has true totals afterwards exactly when the issue is listed as before. |
| ApplyChange.EditBoards | packages/core/issues/cache-coordinator.ts:185-244 | The loop over bucketed lists takes the board step on every one, collects a snapshot of each rewritten list, the stale keys, and the first copy met. |
| ApplyChange.EditWindows | packages/core/issues/cache-coordinator.ts:246-264 | The loop over flat windows patches every copy in every page, with the same collections. |
| ApplyChange.EditTables | packages/core/issues/cache-coordinator.ts:266-277 | The loop over table pages patches every row of the issue and snapshots what it rewrites. |
| ApplyChange.ThreeLoops | packages/core/issues/cache-coordinator.ts:185-277 | The three loops one after another edit each looped view exactly once and nothing else. |
| ApplyChange.PatchInboxIssueStatus | packages/core/inbox/ws-updaters.ts:9-19 | The status is set on exactly the items of the issue, in both inbox lists that are cached. |
| ApplyChange.ApplyIssueChange | packages/core/issues/cache-coordinator.ts:168-303 | The cache becomes the edited cache, entry by entry, and the result holds exactly the snapshots, the previous detail and inbox, the stale keys and the previous issue. |
| ApplyChange.InboxFollows | packages/core/inbox/ws-updaters.ts:9-19 | After an edit with a status every inbox item about the issue shows it, if the inbox is cached, and all other items are as they were. |
| ApplyChange.PreviousIssue | packages/core/issues/cache-coordinator.ts:180-303 | The reported previous issue is the base of the edit, else a copy some view shows, else the detail, and none only if there is none of these. |
| ApplyChange.StaleKeysReported | packages/core/issues/cache-coordinator.ts:168-303 | The reported keys are exactly the keys of stale boards and windows. |
| Rollback.WriteAllAt | packages/core/issues/cache-coordinator.ts:305-329 | Writing true snapshots back, in any number, restores what they save and touches nothing else. |
| Rollback.RollbackIssueChange | packages/core/issues/cache-coordinator.ts:305-329 | The new cache is the old one overwritten by the snapshots, the detail and the inbox list of the change. |
| Rollback.RollbackRestores | packages/core/issues/cache-coordinator.ts:305-329 | After an edit and its rollback every entry but the archived inbox is what it was; that one keeps the edited status. |
| Rollback.RollbackIsExactIff | packages/core/issues/cache-coordinator.ts:288-329 | The rollback is exact if and only if the edit reaches no archived inbox item. |
| Rollback.FailedEdit | packages/core/issues/cache-coordinator.ts:168-329 | Applying and rolling back, run on the cache itself, leaves it as it was exactly under that condition. |
| BatchUpdate.EditEach | packages/core/issues/mutations.ts:425-452 | The loop over the ids applies each edit to what the previous ones left and keeps, per key, the first snapshot. |
| BatchUpdate.FirstWinsAt | packages/core/issues/mutations.ts:430-452 | Keeping the first snapshot of a key keeps the entry from before the batch. |
| BatchUpdate.SavedStep | packages/core/issues/mutations.ts:425-452 | One more issue of the batch keeps the invariant that every changed entry has its pre-batch snapshot, for any list of ids. |
| BatchUpdate.OnMutate | packages/core/issues/mutations.ts:415-487 | All edits are applied, every cached list of children has the patch over exactly the batch's issues, in their places, and the context saves what onError needs. |
| BatchUpdate.OnError | packages/core/issues/mutations.ts:488-517 | Every saved pair is written back. |
| BatchUpdate.BatchUndoneIff | packages/core/issues/mutations.ts:415-517 | For every list of ids, repeated or not, undoing the batch is exact if and only if no archived item was reached and no repeated id's detail absorbs the patch differently. |
| BatchUpdate.DistinctBatchIsUndone | packages/core/issues/mutations.ts:415-517 | A batch of distinct ids is undone exactly on every entry but the archived inbox. |
| BatchUpdate.FailedBatch | packages/core/issues/mutations.ts:415-517 | The two handlers run on the cache itself leave it as it was exactly under that condition. |
| IssueOrder.CompareIsLexicographic | packages/core/issues/queries.ts:181-236 | All branches of the comparison are one lexicographic order: the sort key, missing keys last in both directions, then newer first, then greater id first. |
| IssueOrder.CompareIsAntisymmetric | packages/core/issues/queries.ts:181-236 | Swapping the arguments flips the sign, and only copies with the same id and creation time compare equal. |
| IssueOrder.CompareIsTransitive | packages/core/issues/queries.ts:181-236 | The comparison is transitive for every sort, custom properties of one kind of value included. |
| IssueOrder.ColumnsAndUrgency | packages/core/issues/queries.ts:160-236 | A sort by status follows the columns from backlog to cancelled, one by priority goes from urgent to none, and a descending one the other way round. |
| IssueOrder.PropertySortIsTransitiveIff | packages/core/issues/queries.ts:198-217 | A sort by a property, in either direction, is transitive over all issues exactly if of any two numbers the smaller one also sorts first as a text. |
| IssueOrder.MixedPropertyCycles | packages/core/issues/queries.ts:198-217 | Any two numbers for which it does not make a cycle with the text of the smaller one. |
| FlatWindows.SortsAlikeIff | packages/core/issues/queries.ts:181-236 | Two states of an issue compare alike with every other issue exactly when their sort keys are equal. |
| FlatWindows.NoReconcileKeepsKey | packages/core/issues/cache-coordinator.ts:114-166 | A flat window that is not reported stale sorts the patched issue as before, for every built-in sort. |
| FlatWindows.ReportedIffReadingChanges | packages/core/issues/cache-coordinator.ts:114-166 | A flat window is reported exactly when one of the fields its filter, facets, date range or order read changes. |
| FlatWindows.WindowReportedIff | packages/core/issues/cache-coordinator.ts:246-264 | A window that shows the issue is judged by the copy it shows, any other by the base of the edit. |
| FlatWindows.PatchedStaysSortedIff | packages/core/issues/queries.ts:181-236 | A sorted list stays sorted under an in-place patch, for every sort, exactly when the patched issue has the other issues of the list on the same sides. |
| FlatWindows.WindowStaysSorted | packages/core/issues/cache-coordinator.ts:114-166 | A sorted flat window, of whatever sort, is reported stale, or is sorted after the in-place patch exactly when it has a built-in sort or the issue has the others on the same sides. |
| FlatWindows.NoReconcileKeepsMembership | packages/core/issues/cache-coordinator.ts:114-166 | Without a stale report the issue stays in or out of the flat window exactly when the other facets refuse it or the label and property facets read it as before. |
| FlatWindows.PropertyEditStaleIff | packages/core/issues/cache-coordinator.ts:114-166 | An edit that changes nothing but the property bag is reported exactly to flat windows with a date range over the update time or sorted by it. |
| FlatWindows.PropertyEditGoesUnnoticed | packages/core/issues/cache-coordinator.ts:146-166 | A window sorted by a property that an event with the whole issue leaves out of order without a report, whatever the rest of the issue. |
| FieldHandlers.PatchIssueField | packages/core/issues/ws-updaters.ts:200-299 | The loops rewrite exactly the boards, windows, table rows, children lists and the detail, each with the field of the issue replaced; lists of the "my" family stay. |
| FieldHandlers.OnIssueFieldChanged | packages/core/issues/ws-updaters.ts:190-318 | The field is patched everywhere it is cached, and exactly the views the handler names are invalidated. |
| FieldHandlers.LeftAloneKeepsKey | packages/core/issues/ws-updaters.ts:224-318 | A flat window the handler leaves alone sorts the server's new issue as before exactly when it is not sorted by the update time or that has not moved. |
| FieldHandlers.LeftAloneStaysSorted | packages/core/issues/ws-updaters.ts:224-318 | A sorted flat window the handler leaves alone stays sorted, custom-property sorts included. |
| FieldHandlers.LeftAloneMembershipIff | packages/core/issues/ws-updaters.ts:224-318 | A flat window the handler leaves alone keeps or gains the issue rightly exactly when a date range over the update time reads it as before, for an issue the other facets admit. |
| FieldHandlers.LeftAloneKeepsTotals | packages/core/issues/ws-updaters.ts:200-318 | A board with true totals that the handler leaves alone keeps them, if its window reads no more than its own date range and property filters. |
| FieldHandlers.FieldKeepsTotalsIff | packages/core/issues/ws-updaters.ts:200-299 | A board with true totals has true totals after the field patch exactly when its window hides the issue as before. |
| CacheRuns.RunsStayCoherent | packages/core/issues/mutations.ts:208-300 | In every run of edits, failed edits, success replies, announcements, property and label events, creations, deletions and refetches, boards, windows and details hold true copies, rows those of issues that exist, and each watched view not marked stale has exact totals over listed issues (boards), its order (windows) or true rows (tables), as long as each change is harmless to the watched views it is not reported to. |
| Coherence.OpenIsHarmless | packages/core/issues/cache-coordinator.ts:168-303 | Every change is harmless to boards without a date range or property filter and to windows with a built-in sort; one that keeps the property values is harmless to all windows. |
| CacheRuns.OwnEditIsPossible | packages/core/issues/mutations.ts:219-229 | An edit of this client, with the cached detail as its base, is a proper step in every coherent state. |
| Coherence.ReplyIsInformedIff | packages/core/issues/mutations.ts:271-291 | Reconciling with the success reply is a proper step exactly when the reply has the issue under the owner, status, project and creation facts where the client had put it. |
| Echoes.ConfirmationOnlyRefreshes | packages/core/issues/cache-coordinator.ts:185-244 | An edit that confirms where the issue is filed, whatever else it brings and whatever dimensions it claims, only refreshes copies on a board: nothing moves, leaves or is counted again. |
| Echoes.ReplyOnlyRefreshes | packages/core/issues/mutations.ts:271-291 | So a success reply or an announced whole issue, new update time included, only refreshes the copies of an accurate board. |
| Echoes.ConfirmationRefreshesEverywhere | packages/core/issues/ws-updaters.ts:121-163 | In a coherent cache the announcement of this client's own edit, with the whole issue and a new update time, leaves windows, rows, details and watched boards that are not stale with the copies refreshed where they stand and nothing else changed. |
| Coherence.AnnouncementIsInformedIff | packages/core/issues/ws-updaters.ts:121-163 | Whatever cached copy the handler picks is the true issue, and the announcement is applied with dimensions that miss nothing exactly when no flag denies a change; without a copy, exactly when the derived dimensions miss nothing. |
| Coherence.ServerAnnouncementIsInformedIff | server/internal/handler/issue.go:2602-2624 | With the flags the server sends, that is so exactly when the request did not clear the assignee or the project. |
| Coherence.ClearingIsLost | packages/core/issues/ws-updaters.ts:129-163 | After an announced clearing every accurate board that shows the issue and no longer lists it keeps it, has wrong totals, and is reported only if it is sorted by the update time. |
| CacheRuns.BatchIsRun | packages/core/issues/mutations.ts:425-452 | A batch is such a run: same entries, same stale keys. |
| Echoes.EchoChangesNothing | packages/core/issues/ws-updaters.ts:121-163 | An optimistic edit followed by the server's announcement of it, with whatever copy the handler picks as base and any flags that claim no more than the edit did, leaves every view as the edit alone does. |
| Echoes.BoardEchoChangesNothing | packages/core/issues/cache-coordinator.ts:185-244 | In particular no board moves, drops or counts the issue twice. |
| InFlight.LateRollbackIff | packages/core/issues/mutations.ts:208-270 | Rolling an edit back under any later edits gives, at every key but the archived inbox, what the later edits alone give if and only if they leave what the edit has a snapshot of. |
| InFlight.LateRollbackIsCoherentAt | packages/core/issues/mutations.ts:208-270 | After later edits to other issues the rollback leaves each view coherent with the world in which only they were made, unless they changed it and the failing edit has a snapshot of it, whatever became of the other views. |
| InFlight.LateRollbackIsCoherent | packages/core/issues/mutations.ts:208-270 | So if they left everything it has a snapshot of, the whole cache is coherent. |
| WsUpdates.CachedDimsCoverIff | packages/core/issues/ws-updaters.ts:142-158 | With a cached copy the dimensions miss nothing exactly when no flag the event carries denies a change. |
| WsUpdates.CachedIssueIsFirst | packages/core/issues/ws-updaters.ts:131-137 | The copy an announcement starts from is the detail, else one of the first board, else one of some window, and missing only if no window has one. |
| WsUpdates.ServerFlagsHonestIff | server/internal/handler/issue.go:2602-2624 | The flags the server computes from the request deny no change exactly when the request clears neither the assignee, without setting another, nor the project. |
| WsUpdates.UncachedDimsCoverIff | packages/core/issues/ws-updaters.ts:142-158 | Without a cached copy the derived dimensions can be relied on exactly when each field the event sets is flagged, or is a set project. |
| DeleteCache.CollectDeletedIssueCacheMetadata | packages/core/issues/delete-cache.ts:36-79 | All parents named by any cached view are collected; reading a grouped response as buckets throws. |
| DeleteCache.CleanupDeletedIssueCaches | packages/core/issues/delete-cache.ts:159-188 | Boards, windows and the collected parents' children lose the issue, its own entries are dropped, everything else stays; on a throw nothing has changed. |
| DeleteLaws.CollectionFindsParents | packages/core/issues/delete-cache.ts:36-79 | Collection finds the parent of every children cache that holds the issue, except an empty parent id. |
| DeleteLaws.NothingShowsDeleted | packages/core/issues/delete-cache.ts:81-126 | After the cleanup no board, window, children cache or detail shows the deleted issue, except a children cache under the empty parent id that did before. |
| DeleteLaws.OthersStayShown | packages/core/issues/delete-cache.ts:81-126 | Every other issue is shown by exactly the views that showed it. |
| DeleteLaws.BoardForgets | packages/core/issues/delete-cache.ts:81-96 | Every bucket keeps its other issues, unchanged and in order. |
| DeleteLaws.WindowForgets | packages/core/issues/delete-cache.ts:98-112 | A window keeps its other issues, unchanged and in order across pages. |
| DeleteLaws.WindowTotalsIff | packages/core/issues/delete-cache.ts:98-112 | The totals of a window stay true exactly when it shows the deleted issue just if the server counts it there. |
| DeleteLaws.ChildrenForget | packages/core/issues/delete-cache.ts:115-126 | A children cache keeps its other issues, unchanged and in order; the one under the empty parent id is untouched. |
| DeleteLaws.RemovalLeavesCopyIff | packages/core/issues/cache-helpers.ts:39-47 | A copy survives removal exactly when the id sits in two buckets. |
| DeleteUndo.OnMutate | packages/core/issues/mutations.ts:329-366 | The issue is pruned from every list that shows it and its detail dropped, and every list is saved; a grouped response under the "my" family makes it throw first. |
| DeleteUndo.OnError | packages/core/issues/mutations.ts:367-392 | Every saved list, the detail and the parents' children lists are written back. |
| DeleteUndo.DeletionIsUndone | packages/core/issues/mutations.ts:324-392 | A refused deletion leaves every entry as it was. |
| DeleteUndo.FailedDeletion | packages/core/issues/mutations.ts:324-392 | The two handlers run on the cache itself leave it as it was, throwing included. |
| DeleteUndo.LateUndoIff | packages/core/issues/mutations.ts:324-392 | With other edits made meanwhile, a view ends up as they alone leave it exactly when they left it alone or it is neither a list nor the issue's detail. |
| ChildrenLists.UpdateFamily | packages/core/issues/mutations.ts:231-262 | The parent is the one the known copies name, or else that of the first cached list with the issue; its list has the issue patched, or taken out if the patch names another parent, and is saved. |
| ChildrenLists.UpdateKeepsFamilies | packages/core/issues/mutations.ts:231-322 | Lists of children that are right stay right under an update, all but a new parent's, which is invalidated when the update settles, like the old one's. |
| ChildrenLists.FailedFamilyUpdate | packages/core/issues/mutations.ts:231-270 | A failed update leaves the lists as they were. |
| ChildrenLists.AnnounceToFamily | packages/core/issues/ws-updaters.ts:129-184 | The list of the old parent is patched if the parent stays, and otherwise the lists of the old and the new parent are invalidated. |
| ChildrenLists.AnnouncedFamilyIff | packages/core/issues/ws-updaters.ts:129-184 | A right list is right or invalidated after an announced change exactly when the issue is cached elsewhere, or was no child, or the event names the list's parent, or nothing has changed. |
| ChildrenLists.BatchKeepsFamiliesIff | packages/core/issues/mutations.ts:458-538 | A right list is right or invalidated after a batch exactly when the batch does not name its parent as the new one of issues none of which was in it. |
| ChildrenLists.FieldKeepsFamilies | packages/core/issues/ws-updaters.ts:44-59 | A property or label event keeps right lists right and invalidates them for the update time. |
| ChildrenLists.CreationKeepsFamilies | packages/core/issues/ws-updaters.ts:100-119 | A creation leaves right lists right or invalidated, but for one under the empty parent id. |
| ChildrenLists.DeletionKeepsFamilies | packages/core/issues/delete-cache.ts:115-126 | A deletion keeps right lists right, but for one under the empty parent id that held the issue. |
| CreateIssue.OnIssueCreated | packages/core/issues/ws-updaters.ts:100-119 | The issue is added to every board, and exactly the families the handler names are invalidated, for the mutation and for the event. |
| CreateIssue.CreationReachesIff | packages/core/issues/ws-updaters.ts:100-119 | Every list that may have to show a created issue is invalidated or gets it added, except those of the "my" family for this client's own; of the children lists exactly the parent's is invalidated. |
| CreateIssue.CreationTotalsIff | packages/core/issues/ws-updaters.ts:100-119 | A list with true totals has them after the creation exactly when it is a board that did not have the issue loaded and the issue is new and listed there, or neither. |
| CreateIssue.CreationKeepsAccurate | packages/core/issues/ws-updaters.ts:100-119 | And is then accurate altogether: true copies of listed issues, each id once. |
| Coherence.CreationKeepsCoherent | packages/core/issues/mutations.ts:179-206 | A creation, own or announced, leaves a coherent cache coherent if every watched view that is not invalidated counts the issue in exactly when it is new to it. |
| Coherence.DeletionKeepsCoherent | packages/core/issues/delete-cache.ts:159-188 | A deletion leaves a coherent cache coherent with the world without the issue. |
| Paging.FetchAllFlatPages | packages/core/issues/queries.ts:238-263 | Against any server with bounded totals the loop stops at the first reply that brings enough or nothing new, with exactly the first copy of each issue replied so far, at least as many as that reply's total, or giving up; a server that holds still is read exactly. |
| Paging.AbsorbPage | packages/core/issues/queries.ts:249-255 | One page adds the first copy of each new id, in order, and reports how many. |
| Paging.StillPage | packages/core/issues/queries.ts:238-263 | Each page of a server that holds still extends the known prefix of its list. |
| RelationMerge.SortedIsStrict | packages/core/issues/queries.ts:279-279 | Sorting issues of distinct ids gives a strictly ascending list. |
| RelationMerge.SortedListsAreEqual | packages/core/issues/queries.ts:181-236 | Two strictly sorted lists of the same issues are one list. |
| RelationMerge.MergeFlat | packages/core/issues/queries.ts:265-280 | The last-wins merge of the relations is the one sorted list of the issues found, when copies agree. |
| RelationMerge.MergeBucket | packages/core/issues/queries.ts:381-407 | The first-wins merge of a status is the one sorted list of the issues found, under its own length as total. |
| RelationMerge.MergesAgree | packages/core/issues/queries.ts:265-407 | First-wins and last-wins merging give the same list when copies agree. |
| RelationMerge.MergeIsUnique | packages/core/issues/queries.ts:265-407 | The merged list does not depend on the order of the relations. |
| Threads.RemovalSet | packages/core/issues/mutations.ts:763-775 | The loop ends for any parent links and finds the least set that has the comment and every reply to a member. |
| Threads.DeleteComment | packages/core/issues/mutations.ts:763-779 | The survivors are exactly the entries with another id than the removed ones, repeats included, in their order, and none has a removed parent. |
| Threads.FindRoot | packages/core/issues/mutations.ts:798-805 | The walk up ends, cycles included, at an ancestor that every ancestor reaches. |
| Threads.CollectBelow | packages/core/issues/mutations.ts:806-825 | The walk down ends and collects exactly what reaches the root. |
| Threads.CollectThreadCommentIds | packages/core/issues/mutations.ts:793-826 | The result is the comment's thread: the comments that share an ancestor with it. |
| Threads.SameThread | packages/core/issues/mutations.ts:793-826 | Every member of a comment's thread has the same thread. |
| Threads.ThreadsAgreeIff | packages/core/issues/mutations.ts:793-826 | The members of the result agree on it exactly when the start is a comment or nothing replies to it. |
| Threads.ResolveComment | packages/core/issues/mutations.ts:836-853 | Every entry becomes its resolved, unresolved or unchanged form, by its thread. |
| Threads.ResolvedAlone | packages/core/issues/mutations.ts:836-853 | A resolved comment is the only resolved one in its thread, since the given time and by whom it names; the others lose their resolution, and no other thread changes. |
| Threads.UnresolvedAlone | packages/core/issues/mutations.ts:836-853 | Unresolving takes the resolution off the comment and leaves all other entries alone. |
| Threads.ResolvingKeepsComments | packages/core/issues/mutations.ts:836-853 | Neither changes an entry but in its resolution. |
| Threads.ResolvingKeepsOneResolved | packages/core/issues/mutations.ts:836-853 | If no thread has two resolved comments, none has after resolving or unresolving any id. |
| Timeline.CollectDescendants | apps/mobile/lib/timeline-thread.ts:28-41 | For distinct ids the search ends although it marks nothing visited; it gathers every reply below the entry once: first the replies to the entry, then those to each reply in turn. |
| Timeline.KidsInOrder | apps/mobile/lib/timeline-thread.ts:11-26 | The replies to an entry are taken in the order of the entries. |
| Timeline.BuildTimelineRows | apps/mobile/lib/timeline-thread.ts:9-47 | One row for each entry that is no reply, in the order of the entries, with exactly the replies below it, in the order of the search. |
| Timeline.OneRoot | apps/mobile/lib/timeline-thread.ts:9-47 | A reply is below at most one row. |
| Timeline.AllShownIff | apps/mobile/lib/timeline-thread.ts:9-47 | Every entry is shown exactly when no parent links form a cycle. |
| TimelineSearch.SearchEndsIff | apps/mobile/lib/timeline-thread.ts:28-41 | For any entries the queue of the search under an id runs empty exactly when no way down from it meets an id twice. |
| TimelineSearch.DistinctIdsEnd | apps/mobile/lib/timeline-thread.ts:28-41 | With distinct ids the search under a top-level entry ends, parent cycles elsewhere included. |
| Timeline.RepeatedIdNeverEnds | apps/mobile/lib/timeline-thread.ts:28-41 | Two entries of one id, one answering the other, under which the queue is never empty, after any number of steps. |
| Reconnect.DelayBounds | packages/core/api/ws-client.ts:148-175 | Delays lie in 800 to 30000 ms before the eighth attempt, and in 96000 to 144000 ms from then on. |
| Reconnect.BackoffDoubles | packages/core/api/ws-client.ts:164-170 | The backoff starts at a second and doubles with every attempt up to thirty. |
| Reconnect.DelaySpreads | packages/core/api/ws-client.ts:148-175 | A delay lies within a fifth of the backoff, is just that in the middle, and is no shorter for a greater random number. |
| Reconnect.RunsStayGood | packages/core/api/ws-client.ts:67-261 | In every run in which the owner connects only when idle, there is at most one of a live socket and an armed timer, rejected sockets are those whose close is suppressed, and the counters agree with the history of events. |
| Reconnect.CloseOutcome | packages/core/api/ws-client.ts:134-175 | After any run a close of a rejected socket arms nothing; any other arms one timer, with the delay and the state decided by the number of such closes since the last authentication or disconnect. |
| Reconnect.CallbacksFire | packages/core/api/ws-client.ts:206-221 | Reconnect callbacks run on an authentication unless it is the first since the last disconnect. |
| Reconnect.DisconnectForgets | packages/core/api/ws-client.ts:241-261 | After any run a disconnect leaves no socket, no timer and no memory of the connection. |
| Reconnect.StateFollows | packages/core/api/ws-client.ts:67-175 | After any run the state is connected upon an authentication, unauthorized upon a rejection, decided by the number of closes upon a close, and unchanged upon anything else. |
| Reconnect.WaitingFollows | packages/core/api/ws-client.ts:67-132 | The client waits for an acknowledgement exactly from sending a token until it is authenticated, rejected, dialed again or disconnected. |
| Reconnect.ImpatientOwnerGetsTwoSockets | packages/core/api/ws-client.ts:67-146 | After any run connecting keeps at most one socket or timer exactly when there was neither, and connecting while a timer is armed ends in two live sockets once it fires. |
| Uploads.EveryRunIsGood | packages/core/drafts/upload-coordinator.ts:25-75 | In every interleaving the controllers are exactly the latest, unfinished, unaborted uploads of their ids; each upload reports at most once and never a failure after its abort. |
| Uploads.FinishUntracksOnlyItself | packages/core/drafts/upload-coordinator.ts:53-57 | An upload that ends untracks itself or nothing, never a newer upload under the same id. |
| Uploads.ReportsStand | packages/core/drafts/upload-coordinator.ts:31-52 | Whatever happens after an upload settled, its report stays the only one. |
| Uploads.SettlingDecides | packages/core/drafts/upload-coordinator.ts:31-52 | In every run a success is reported once whatever happened, and a rejection once as a failure exactly if the upload was not aborted and the error is no AbortError. |
| Uploads.AbortedIff | packages/core/drafts/upload-coordinator.ts:61-75 | Exactly those uploads are aborted that were the latest of their id, unfinished and not yet aborted when their id, or everything, was aborted. |
| Uploads.StartAndFinish | packages/core/drafts/upload-coordinator.ts:27-57 | A start adds one running upload and tracks it under its id alone; a finally block finishes its upload alone. |
| Uploads.SupersededIsNeverAborted | packages/core/drafts/upload-coordinator.ts:61-75 | Once a newer upload has started under its id, no later step aborts the older one. |
| Uploads.SuccessMayFollowAbort | packages/core/drafts/upload-coordinator.ts:31-52 | An upload that is aborted while running and settles later, whatever happens in between, is reported as uploaded if its request resolves and not at all if it is rejected. |
| Uploads.Coordinator.AbortEverything | packages/core/drafts/upload-coordinator.ts:68-75 | The loop aborts exactly the tracked uploads, and none stays tracked. |
| Mentions.TokenAtCursor | apps/mobile/lib/mention-serialize.ts:15-40 | The token is the last at sign before the cursor, after a space or at the start, with no space since; nothing is returned exactly when there is none. |
| Mentions.PickReplacesToken | apps/mobile/lib/mention-serialize.ts:42-61 | Picking a mention for a token replaces exactly that token. |
| Mentions.NoTokenInMention | apps/mobile/lib/mention-serialize.ts:15-61 | Behind a picked mention, and anywhere inside one without spaces, no suggestion opens. |
| Mentions.SerializeMentions | apps/mobile/lib/mention-serialize.ts:63-104 | All or nothing: the text with every mention replaced by its link, in order, if the words are exactly the markers' names in order, else the text with every sentinel erased. |
| Mentions.StripIsFill | apps/mobile/lib/mention-serialize.ts:100-102 | Giving up is the same substitution with the mentions' own words: nothing else of the text changes. |
| Mentions.SentinelLeaksIff | apps/mobile/lib/mention-serialize.ts:63-104 | The result contains a sentinel exactly when a linked marker carries one in its name or id. |
| Mentions.RoundTripIff | apps/mobile/lib/mention-serialize.ts:42-104 | Plain pieces with picked mentions between come back as the pieces with the links between, exactly when no name contains a space. |
| MentionPicks.PickSplitsPiece | apps/mobile/lib/mention-serialize.ts:42-61 | Picking for a query anywhere in such a text gives such a text again. |
| MentionPicks.PicksCompose | apps/mobile/lib/use-mention-input.ts:67-118 | After any run of typing, over mentions too, and picking, wherever and in whatever order, the text is plain pieces with picked mentions between. |
| MentionPicks.AnyOrderServes | apps/mobile/lib/mention-serialize.ts:63-104 | With one-word names the text gets the markers' links, in their order, if the names come in the order of the markers, and else loses every link. |
| MentionPicks.RightLinksIff | apps/mobile/lib/mention-serialize.ts:63-104 | Every mention gets its own link exactly when the markers' names and links come in the order of the text. |
| MentionPicks.PicksServeIff | apps/mobile/lib/use-mention-input.ts:67-118 | After any run of typing, over mentions too, and picking from the empty field the message says what was meant exactly when no mention is left or names and links were picked in the order in which they stand. |
| MentionPicks.ErasedAreMissing | apps/mobile/lib/use-mention-input.ts:67-118 | The markers outnumber the mentions in the text exactly by the mentions typed over. |
| MentionPicks.ErasingLosesLinks | apps/mobile/lib/use-mention-input.ts:67-118 | One mention typed over, and every other mention is sent without its link. |
| MentionPicks.PickServesIff | apps/mobile/lib/use-mention-input.ts:102-118 | After picks in text order a further pick keeps the links exactly when every mention behind it has the same name, and else all are given up. |
| MentionPicks.PickIsRightIff | apps/mobile/lib/use-mention-input.ts:102-118 | And every mention gets its own link exactly when those behind the further pick have its name and its link. |
| MentionPicks.NamesakesAreSwapped | apps/mobile/lib/use-mention-input.ts:102-118 | Of two namesakes the one picked second but standing first gets the other's link, between any pieces, unless they are one. |
| MentionLinks.LinkIsRead | packages/views/editor/extensions/mention-extension.ts:72-86 | A link is read by the editor as the name, kind and id it was made of, whatever follows it. |
| MentionLinks.LinksDiffer | apps/mobile/lib/mention-serialize.ts:94-95 | Different mentions have different links. |
| Transcript.HighestTaskMessageSeq | packages/core/chat/queries.ts:122-131 | None exactly for no messages, else the greatest number. |
| Transcript.StableSortSorts | packages/core/chat/queries.ts:141-141 | The sort orders, keeps every message, and keeps equals in their order. |
| Transcript.MergeShows | packages/core/chat/queries.ts:133-142 | A merge shows what was there and what has a new number, and nothing else. |
| Transcript.MergeNumbers | packages/core/chat/queries.ts:133-142 | The numbers of a merge are the union of the numbers merged. |
| Transcript.ExistingWins | packages/core/chat/queries.ts:138-141 | A known number keeps exactly its messages. |
| Transcript.MergeAscendingIff | packages/core/chat/queries.ts:133-142 | A strictly ascending transcript stays so exactly when the new messages have distinct numbers. |
| Transcript.DeliveryOrderIsIrrelevant | packages/core/chat/queries.ts:133-142 | Any order, repetition and regrouping of batches with the same messages converges to the same transcript, when equal numbers carry equal messages. |
| Transcript.RepeatInBatchStays | packages/core/chat/queries.ts:138-141 | A message repeated within one batch stays twice, so batches must be distinct within. |
| Transcript.LastIsHighest | packages/core/chat/queries.ts:122-142 | The last number of an ascending transcript is its highest. |
| Transcript.FullBackfillCompletes | packages/core/chat/use-task-message-tail.ts:31-54 | A full backfill completes any part of the log. |
| Transcript.TailCompletesIff | packages/core/chat/use-task-message-tail.ts:31-54 | Asking only above the highest number completes a transcript exactly when it has no hole below. |
| DraftStorage.NormalizeStoredUploads | packages/core/drafts/draft-upload.ts:70-89 | No upload in flight is kept; every other stored entry and every bare attachment of the older format is. |
| DraftStorage.NormalizedMembers | packages/core/drafts/draft-upload.ts:70-89 | An upload is kept exactly if it was stored and is not in flight, or comes from a bare attachment. |
| DraftStorage.NormalizedAppend | packages/core/drafts/draft-upload.ts:70-89 | And what is kept stands in the order in which it was stored. |
| DraftStorage.ReadDraftAttachments | packages/core/chat/store.ts:64-80 | The loop reads each stored list through that normalization and keeps exactly the keys with something left. |
| DraftStorage.PruneDrafts | packages/core/chat/store.ts:43-53 | The written drafts are exactly the non-empty ones. |
| DraftStorage.WriteThenRead | packages/core/chat/store.ts:32-158 | Reading back what was written loses exactly empty drafts, uploads in flight and empty lists, and reads absent restore attachments as none. |
| DraftStorage.ReadIsPersistent | packages/core/chat/store.ts:64-129 | What is read from any storage has no upload in flight, no empty list and no absent attachments. |
| DraftStorage.MigrateLegacyNewChatSlots | packages/core/chat/store.ts:160-178 | The loop leaves exactly the slots without the per-agent ones, and says whether it changed anything. |
| DraftStorage.MigrationIsIdempotent | packages/core/chat/store.ts:160-178 | Migrating again, for whatever agent, changes nothing. |
| DraftStorage.MigrationKeeps | packages/core/chat/store.ts:160-178 | No slot changes but a missing new-chat slot, which becomes the selected agent's. |
| DraftStorage.MigrationMixesIff | packages/core/chat/store.ts:160-194 | Texts and attachments are adopted apart: the new chat shows those of no one slot exactly when it had one of the two, the agent's slot has the other, and not with the same first one. |
| ChatStore.RunsMirror | packages/core/chat/store.ts:333-475 | In every run of the actions, reloads included, from any storage, storage holds exactly what of the memory survives a restart. |
| ChatStore.ReadBackIsMemoryIff | packages/core/chat/store.ts:333-475 | Reading back gives the memory minus its volatile parts exactly when no empty draft is stored, and the store never stores one. |
| DraftRuns.TextIsLastSet | packages/core/chat/store.ts:372-385 | After any run of the actions, reloads included, the text of every slot is what the last action that set it left, with the additions since; none after a clearing; what was not empty after a reload. |
| DraftRuns.SetTextStands | packages/core/chat/store.ts:372-377 | In particular a text stays as it was set while nothing writes to its slot. |
| DraftRuns.TextIsReadBack | packages/core/chat/store.ts:372-475 | Reading storage back shows that text exactly if it is not empty. |
| DraftRuns.AppendedBehind | packages/core/chat/store.ts:378-385 | An addition follows the old text without its trailing white space and a blank line, or stands alone. |
| DraftRuns.FilesAreKept | packages/core/chat/store.ts:386-475 | After any run every slot has the attachments its setting, additions, results, failures, removals and clearings left, and after a reload those not in flight. |
| DraftRuns.AttachedOnce | packages/core/chat/store.ts:394-409 | An attachment that is there is replaced in its places, one that is not comes last. |
| DraftRuns.ReplacedInPlace | packages/core/chat/store.ts:418-448 | A result takes the place of its upload and changes no other. |
| DraftRuns.RemovedInOrder | packages/core/chat/store.ts:449-459 | Removing an upload leaves all others in their order. |
| DraftRuns.FirstIsFound | packages/core/chat/store.ts:431-448 | The upload that fails is the first of its id. |
| DraftRuns.FailureKeepsFile | packages/core/chat/store.ts:431-448 | It keeps its id, name, size and type, and its error is the given one. |
| DraftRuns.AttachmentIsKept | packages/core/drafts/draft-upload.ts:40-50 | An attachment keeps its name, size and type under its id, or without one its address, and loses only its download address. |
| DraftRuns.SettledIsAttachment | packages/core/chat/store.ts:418-430 | A settled upload is its attachment under the id it was started with. |
| DraftRuns.AppliedAreRemembered | packages/core/chat/store.ts:333-346 | After any run the applied restores are those marked and not forgotten since. |
| DraftRuns.AppliedInOrder | packages/core/chat/store.ts:333-346 | A restore newly applied comes last, a forgotten one leaves the others in their order, and a reload changes none. |
| ChatStore.LoadIsIdempotent | packages/core/chat/store.ts:180-194 | Loading twice, migration included, changes neither storage nor what persists. |
| ChatStore.LateResultIsDropped | packages/core/chat/store.ts:418-458 | A result for a removed upload changes nothing. |
| ChatStore.UploadIsWritten | packages/core/chat/store.ts:410-417 | A started upload is written to storage at once. |
| ChatStore.SettledUploadIsReadBack | packages/core/chat/store.ts:410-430 | It is not read back while in flight, and is read back behind the others once its result has arrived. |
| ChatStore.Store.Load | packages/core/chat/store.ts:180-194 | Memory and storage after a load are those of the specification, read by those loops, legacy slots migrated and written back only on a change. |
| RestoreQueue.FirstInFirstOut | packages/core/chat/store.ts:347-371 | After any run, reloads included, from any store in step with its storage, each session's queue is what it was without the restores taken out since, followed by those put in and not taken out since, in order of entry, each once. |
| RestoreQueue.RunsKeepQueuesGood | packages/core/chat/store.ts:347-371 | From any storage, queues that are non-empty and free of duplicates stay so in every run. |

## Left out

- One workspace: query keys, storage keys and runs do not name a workspace, and a
  rehydration reads the same workspace again.
- React hooks, the internals of the query library, cancelling and fetching: network
  replies are arbitrary inputs, and invalidation is modelled only as the reported
  stale keys.
- The id a server event carries is not kept in its patch, where it would change
  nothing; children lists have their own laws in ChildrenLists and are not part of the
  runs.
- A patch key that is present with the value undefined: a patch owns a key exactly
  when it has a value for it.
- Floating point: positions and delays are reals; NaN does not occur.
- Locale collation is the order of an arbitrary rank; timestamps are integers, dates
  and date windows are texts in the order of their ranks.
- CacheRuns.RunsStayCoherent: is about the views a reader chooses to watch; a change
  that is not harmless to one of them has to be reported to it, because of the gaps
  above. A run does not go on from a deletion whose cleanup threw. In a property or
  label event the server's update time stays: if it moves, views that read it are
  described by FieldHandlers.LeftAloneKeepsKey and FieldHandlers.LeftAloneMembershipIff.
- Coherence.ReplyIsInformedIff: a reply that files the issue elsewhere than the client
  had put it is no step of the runs.
- Echoes.EchoChangesNothing: is about an echo of the same patch; an echo with the whole
  issue and a new update time is in Echoes.ConfirmationRefreshesEverywhere.
- InFlight.LateRollbackIsCoherentAt: later edits are to other issues; the archived inbox
  and the children list of the mutation are apart.
- ChildrenLists.UpdateKeepsFamilies and ChildrenLists.AnnouncedFamilyIff: lists under the
  empty parent id are apart, which the handlers take for no parent.
- DraftRuns.TextIsLastSet: storage holds no empty draft at the start, as the store itself
  never writes one.
- MentionLinks.LinkIsRead: names and ids that need no escaping; the serializer escapes
  nothing.
- MentionPicks.RightLinksIff and the results from it: names and ids are single words.
- MentionPicks.PicksServeIff: the user types between mentions or over whole ones and
  types no sentinel; what is sent of a text with a mention cut in two is in
  Mentions.SerializeMentions.
- BucketLaws.PatchKeepsPositionOrder: boards sorted otherwise than by position are
  not kept in their order by the helpers, so nothing is claimed for them.
- DeleteLaws.NothingShowsDeleted: table rows are only invalidated by the deletion, so
  they are not among the views.
- RelationMerge.MergeFlat and RelationMerge.MergeBucket: one status bucket at a time,
  given the fetched lists; the total of a merged bucket is its length, as in the
  source.
- IssueOrder.CompareIsTransitive: needs one kind of value in a custom property; other
  issues are in IssueOrder.PropertySortIsTransitiveIff.
- Timeline.BuildTimelineRows: needs distinct ids; when the search ends without them is
  in TimelineSearch.SearchEndsIff.
- Uploads.EveryRunIsGood: callbacks do not throw; they may call the coordinator again.
- Transcript.DeliveryOrderIsIrrelevant: numbers are distinct within a batch.
- The cleanup of drafts on logout, the panel size and the selected agent, project and
  session of the chat store.
- Stored drafts and applied restore ids of a wrong JSON type; wrong elements of
  stored upload and restore lists are modelled.
- UTF-16: strings are sequences of characters, and a lone surrogate does not occur.
- Handlers of other socket messages, and callbacks of the WebSocket client that call
  it back.
- DeleteUndo.LateUndoIff: later edits, no other events, between a deletion and its
  refusal.
- Assignee groups, Gantt pages and metadata events: they add no harder invariant.
