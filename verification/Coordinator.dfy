/** One issue edit applied to every cached view of the issue, and its undoing
    (packages/core/issues/cache-coordinator.ts). */
module Coordinator {
  import opened IssueTypes
  import opened Membership
  import opened Buckets
  import opened QueryCache

  datatype Contract = Contract(scope: Option<string>, filter: ListFilter, sort: SortParam)

  const NO_SORT: SortParam := SortParam(None, false, None, None, None, map[])

  function ListContractFromKey(key: Key): Contract {
    match key
    case BoardKey(sort) => Contract(None, NO_FILTER, sort)
    case MyBoardKey(scope, filter, sort) => Contract(Some(scope), filter, sort)
    case _ => Contract(None, NO_FILTER, NO_SORT)
  }

  // What the patch changes ------------------------------------------------------

  /** patchFieldChanged, for one field of the base issue. */
  predicate FieldChanged<T(==)>(field: Option<T>, base: Option<T>) {
    field.Some? && field != base
  }

  function Of<T>(base: Option<Issue>, get: Issue -> T): Option<T> {
    if base.Some? then Some(get(base.value)) else None
  }

  predicate TitleChanged(p: PartialIssue, base: Option<Issue>) {
    FieldChanged(p.title, Of(base, (i: Issue) => i.title))
  }

  predicate PriorityChanged(p: PartialIssue, base: Option<Issue>) {
    FieldChanged(p.priority, Of(base, (i: Issue) => i.priority))
  }

  predicate ParentChanged(p: PartialIssue, base: Option<Issue>) {
    FieldChanged(p.parentId, Of(base, (i: Issue) => i.parentId))
  }

  predicate PositionChanged(p: PartialIssue, base: Option<Issue>) {
    FieldChanged(p.position, Of(base, (i: Issue) => i.position))
  }

  predicate StartDateChanged(p: PartialIssue, base: Option<Issue>) {
    FieldChanged(p.startDate, Of(base, (i: Issue) => i.startDate))
  }

  predicate DueDateChanged(p: PartialIssue, base: Option<Issue>) {
    FieldChanged(p.dueDate, Of(base, (i: Issue) => i.dueDate))
  }

  predicate CreatedAtChanged(p: PartialIssue, base: Option<Issue>) {
    FieldChanged(p.createdAt, Of(base, (i: Issue) => i.createdAt))
  }

  /** patchChangesAnyIssueField */
  predicate AnyFieldChanged(p: PartialIssue, base: Option<Issue>) {
    if base.Some? then Merge(base.value, p) != base.value else p != EMPTY_PATCH
  }

  /** flatWindowNeedsReconcile */
  predicate FlatWindowNeedsReconcile(key: Key, p: PartialIssue, base: Option<Issue>, changed: ChangedDims)
    requires key.FlatKey?
  {
    var filter, sort := key.flatFilter, key.sort;
    || ListFilterDependsOn(Some(key.flatScope), filter.list, changed)
    || (filter.q != "" && TitleChanged(p, base))
    || (changed.status && filter.statuses != [])
    || (PriorityChanged(p, base) && filter.priorities != [])
    || (changed.assignee && (filter.assigneeFilters != [] || filter.includeNoAssignee))
    || (changed.project && (filter.projectIds != [] || filter.includeNoProject))
    || (ParentChanged(p, base) && filter.topLevelOnly)
    || (sort.dateField == Some(UpdatedAtField) && AnyFieldChanged(p, base))
    || (sort.dateField == Some(CreatedAtField) && CreatedAtChanged(p, base))
    || match sort.sortBy.GetOr(ByPosition)
       case ByTitle => TitleChanged(p, base)
       case ByStatus => changed.status
       case ByPriority => PriorityChanged(p, base)
       case ByCreatedAt => CreatedAtChanged(p, base)
       case ByUpdatedAt => AnyFieldChanged(p, base)
       case ByStartDate => StartDateChanged(p, base)
       case ByDueDate => DueDateChanged(p, base)
       case ByPosition => PositionChanged(p, base)
       case ByProperty(_) => false
  }

  // One entry at a time ------------------------------------------------------------

  /** The arguments of applyIssueChange. */
  datatype Edit = Edit(id: string, patch: PartialIssue, changed: ChangedDims, base: Option<Issue>)

  /** What one bucketed list becomes: its next value, whether it is rewritten
      (and so snapshotted), and whether its key is reported stale. */
  datatype Step = Step(next: ListCache, wrote: bool, stale: bool)

  /** The list holds the issue. */
  function LoadedStep(t: Contract, c: ListCache, copy: Issue, ed: Edit): Step {
    var resorted := t.sort.sortBy == Some(ByUpdatedAt) && AnyFieldChanged(ed.patch, Some(copy));
    if ListFilterDependsOn(t.scope, t.filter, ed.changed) then
      var answer := IssueMatchesListFilter(Whole(Merge(copy, ed.patch)), t.scope, t.filter);
      if answer == No then Step(RemoveIssueFromBuckets(c, ed.id), true, resorted)
      else Step(PatchIssueInBuckets(c, ed.id, ed.patch), true, resorted || answer == Unknown)
    else
      Step(PatchIssueInBuckets(c, ed.id, ed.patch), true, resorted)
  }

  /** The list does not hold the issue, which may be beyond its loaded pages. */
  function UnloadedStep(t: Contract, c: ListCache, ed: Edit): Step {
    var resorted := t.sort.sortBy == Some(ByUpdatedAt) && AnyFieldChanged(ed.patch, ed.base);
    if !ListFilterDependsOn(t.scope, t.filter, ed.changed) && !ed.changed.status then
      Step(c, false, resorted)
    else
      var was :=
        if ed.base.Some? then IssueMatchesListFilter(Whole(ed.base.value), t.scope, t.filter) else Unknown;
      var now := IssueMatchesListFilter(Spread(ed.base, ed.patch), t.scope, t.filter);
      if was == No && now == No then
        Step(c, false, resorted)
      else if was == Yes && now == Yes then
        if !ed.changed.status || ed.patch.status.None? || ed.base.value.status == ed.patch.status.value then
          Step(c, false, resorted)
        else
          Step(MoveBucketTotal(c, ed.base.value.status, ed.patch.status.value), true, true)
      else if was == Yes && now == No then
        Step(DecrementBucketTotal(c, ed.base.value.status), true, resorted)
      else
        Step(c, false, true)
  }

  function BoardStep(key: Key, c: ListCache, ed: Edit): Step {
    var t := ListContractFromKey(key);
    var found := FindIssueLocation(c, ed.id);
    if found.Some? then LoadedStep(t, c, found.value.issue, ed) else UnloadedStep(t, c, ed)
  }

  function PatchInPlace(issues: seq<Issue>, id: string, p: PartialIssue): (r: seq<Issue>)
    ensures |r| == |issues|
  {
    seq(|issues|, k requires 0 <= k < |issues| => if issues[k].id == id then Merge(issues[k], p) else issues[k])
  }

  function PatchPages(pages: seq<Page>, id: string, p: PartialIssue): (r: seq<Page>)
    ensures |r| == |pages|
  {
    seq(|pages|, k requires 0 <= k < |pages| => pages[k].(issues := PatchInPlace(pages[k].issues, id, p)))
  }

  function PatchRows(rows: seq<Row>, id: string, p: PartialIssue): (r: seq<Row>)
    ensures |r| == |rows|
  {
    seq(|rows|, k requires 0 <= k < |rows| =>
      if rows[k].issue.id == id then rows[k].(issue := Merge(rows[k].issue, p)) else rows[k])
  }

  /** The last copy met while mapping: `found` is reassigned at every hit. */
  function LastById(issues: seq<Issue>, id: string): (r: Option<Issue>)
    ensures r.Some? ==> r.value in issues && r.value.id == id
    ensures r.None? ==> forall i <- issues :: i.id != id
  {
    if issues == [] then None
    else if issues[|issues| - 1].id == id then Some(issues[|issues| - 1])
    else LastById(issues[..|issues| - 1], id)
  }

  function PageIssues(pages: seq<Page>): seq<Issue> {
    if pages == [] then [] else pages[0].issues + PageIssues(pages[1..])
  }

  function RowIssues(rows: seq<Row>): seq<Issue> {
    seq(|rows|, k requires 0 <= k < |rows| => rows[k].issue)
  }

  function InboxStatus(items: seq<InboxItem>, id: string, status: Status): (r: seq<InboxItem>)
    ensures |r| == |items|
  {
    seq(|items|, k requires 0 <= k < |items| =>
      if items[k].issueId == Some(id) then items[k].(issueStatus := Some(status)) else items[k])
  }

  function Or<T>(a: Option<T>, b: Option<T>): Option<T> {
    if a.Some? then a else b
  }

  // The whole cache as a function -------------------------------------------------

  /** What an edit makes of the entry under key k; `inboxLoaded` says whether
      the inbox list is cached at all. */
  function PatchedEntry(k: Key, e: Entry, ed: Edit, inboxLoaded: bool): Entry {
    if IsBoard(k, e) then Board(BoardStep(k, e.cache, ed).next)
    else if IsWindow(k, e) then e.(pages := PatchPages(e.pages, ed.id, ed.patch))
    else if IsTable(k, e) then e.(rows := PatchRows(e.rows, ed.id, ed.patch))
    else if k == DetailKey(ed.id) && e.IssueData? then IssueData(Merge(e.issue, ed.patch))
    else if (k.InboxKey? || k.ArchivedInboxKey?) && e.Inbox? && ed.patch.status.Some? && inboxLoaded then
      Inbox(InboxStatus(e.items, ed.id, ed.patch.status.value))
    else e
  }

  function Applied(entries: Entries, ed: Edit): Entries {
    map k | k in entries :: PatchedEntry(k, entries[k], ed, InboxOf(entries, InboxKey).Some?)
  }

  /** Does the edit snapshot this entry before rewriting it? */
  predicate Snapshotted(k: Key, e: Entry, ed: Edit) {
    || (IsBoard(k, e) && BoardStep(k, e.cache, ed).wrote)
    || (IsWindow(k, e) && LastById(PageIssues(e.pages), ed.id).Some?)
    || (IsTable(k, e) && LastById(RowIssues(e.rows), ed.id).Some?)
  }

  predicate StaleEntry(k: Key, e: Entry, ed: Edit) {
    || (IsBoard(k, e) && BoardStep(k, e.cache, ed).stale)
    || (IsWindow(k, e)
        && FlatWindowNeedsReconcile(k, ed.patch, Or(LastById(PageIssues(e.pages), ed.id), ed.base), ed.changed))
  }

  /** The stale keys of an edit. */
  function StaleKeys(entries: Entries, ed: Edit): set<Key> {
    set k | k in entries && StaleEntry(k, entries[k], ed)
  }
}
