/** Flat windows that are patched in place: for every built-in sort a sorted window
    stays sorted or is reported stale; for a custom-property sort, and for the facets
    the coordinator does not look at, the exact condition. */
module FlatWindows {
  import opened IssueTypes
  import opened Membership
  import opened QueryCache
  import opened Coordinator
  import opened IssueOrder

  ghost predicate StrictlySorted(l: Locale, issues: seq<Issue>, sort: SortParam) {
    forall j, k :: 0 <= j < k < |issues| ==> CompareIssuesForSort(l, issues[j], issues[k], sort) < 0
  }

  /** Two states of one issue sort alike against every issue exactly when their
      sort keys are equal; for a custom property that is all there is to check. */
  lemma SortsAlikeIff(l: Locale, i: Issue, j: Issue, sort: SortParam)
    requires i.id == j.id && i.createdAt == j.createdAt && SameKind(i, j, sort)
    ensures KeyOf(l, i, sort) == KeyOf(l, j, sort) <==>
      forall o: Issue :: SameKind(i, o, sort) && SameKind(j, o, sort) ==>
        CompareIssuesForSort(l, j, o, sort) == CompareIssuesForSort(l, i, o, sort)
  {
    forall o: Issue | SameKind(i, o, sort) && SameKind(j, o, sort)
      ensures KeyOf(l, i, sort) == KeyOf(l, j, sort) ==>
              CompareIssuesForSort(l, j, o, sort) == CompareIssuesForSort(l, i, o, sort)
    {
      CompareIsLexicographic(l, i, o, sort);
      CompareIsLexicographic(l, j, o, sort);
    }
    CompareIsAntisymmetric(l, i, i, sort);
    CompareIsAntisymmetric(l, j, i, sort);
    assert SameKind(i, i, sort) && SameKind(j, i, sort);
  }

  /** What is not reported stale keeps its sort key. */
  lemma NoReconcileKeepsKey(l: Locale, key: Key, i: Issue, p: PartialIssue, changed: ChangedDims)
    requires key.FlatKey? && !key.sort.sortBy.GetOr(ByPosition).ByProperty?
    requires Covers(changed, i, Merge(i, p))
    requires !FlatWindowNeedsReconcile(key, p, Some(i), changed)
    ensures KeyOf(l, Merge(i, p), key.sort) == KeyOf(l, i, key.sort)
  {
  }

  lemma {:induction false} PatchedPageIssues(pages: seq<Page>, id: string, p: PartialIssue)
    ensures PageIssues(PatchPages(pages, id, p)) == PatchInPlace(PageIssues(pages), id, p)
  {
    if pages == [] {
    } else {
      PatchedPageIssues(pages[1..], id, p);
      assert PatchPages(pages, id, p)[1..] == PatchPages(pages[1..], id, p);
      assert PatchInPlace(pages[0].issues + PageIssues(pages[1..]), id, p)
          == PatchInPlace(pages[0].issues, id, p) + PatchInPlace(PageIssues(pages[1..]), id, p);
    }
  }

  // What a window reads ---------------------------------------------------------------

  /** The fields of an issue that decide, by the filter, the facets, the date range or
      the order of a window, whether and where it shows the issue; labels, property
      values and the fields no edit changes aside. */
  datatype Reading = Reading(
    title: Option<string>,
    status: Option<Status>,
    priority: Option<Priority>,
    assignee: Option<(Option<ActorType>, Option<string>)>,
    project: Option<Option<string>>,
    parent: Option<Option<string>>,
    position: Option<real>,
    startDate: Option<Option<string>>,
    dueDate: Option<Option<string>>,
    createdAt: Option<int>,
    everything: Option<Issue>)

  function Read<T>(wanted: bool, field: T): Option<T> {
    if wanted then Some(field) else None
  }

  predicate ReadsAssignee(key: Key)
    requires key.FlatKey?
  {
    var f := key.flatFilter;
    || key.flatScope == "all" || f.assigneeFilters != [] || f.includeNoAssignee
    || f.list.assigneeId.Some? || f.list.assigneeIds.Some? || f.list.assigneeTypes.Some?
    || f.list.involvesUserId.Some?
  }

  predicate ReadsProject(key: Key)
    requires key.FlatKey?
  {
    var f := key.flatFilter;
    || f.projectIds != [] || f.includeNoProject
    || (key.flatScope != "all" && f.list.projectId.Some?)
  }

  function ReadingOf(key: Key, i: Issue): Reading
    requires key.FlatKey?
  {
    var f, sort := key.flatFilter, key.sort;
    var field := sort.sortBy.GetOr(ByPosition);
    Reading(
      Read(f.q != "" || field == ByTitle, i.title),
      Read(f.statuses != [] || field == ByStatus, i.status),
      Read(f.priorities != [] || field == ByPriority, i.priority),
      Read(ReadsAssignee(key), (i.assigneeType, i.assigneeId)),
      Read(ReadsProject(key), i.projectId),
      Read(f.topLevelOnly, i.parentId),
      Read(field == ByPosition, i.position),
      Read(field == ByStartDate, i.startDate),
      Read(field == ByDueDate, i.dueDate),
      Read(field == ByCreatedAt || sort.dateField == Some(CreatedAtField), i.createdAt),
      Read(field == ByUpdatedAt || sort.dateField == Some(UpdatedAtField), i))
  }

  /** A window is reported exactly when what it reads of the issue changes: nothing is
      missed, and nothing is reported that the window does not look at. */
  lemma ReportedIffReadingChanges(key: Key, i: Issue, p: PartialIssue)
    requires key.FlatKey?
    ensures
      FlatWindowNeedsReconcile(key, p, Some(i), IssueChangedDims(p, Some(i)))
      <==> ReadingOf(key, Merge(i, p)) != ReadingOf(key, i)
  {
  }

  /** A window that shows the issue is judged by the copy it shows, any other by the base
      of the edit. */
  lemma WindowReportedIff(k: Key, e: Entry, ed: Edit)
    requires IsWindow(k, e)
    ensures
      var shown := LastById(PageIssues(e.pages), ed.id);
      && (shown.Some? && ed.changed == IssueChangedDims(ed.patch, shown) ==>
            (StaleEntry(k, e, ed) <==> ReadingOf(k, Merge(shown.value, ed.patch)) != ReadingOf(k, shown.value)))
      && (shown.None? && ed.base.Some? && ed.changed == IssueChangedDims(ed.patch, ed.base) ==>
            (StaleEntry(k, e, ed) <==> ReadingOf(k, Merge(ed.base.value, ed.patch)) != ReadingOf(k, ed.base.value)))
  {
    var shown := LastById(PageIssues(e.pages), ed.id);
    if shown.Some? {
      ReportedIffReadingChanges(k, shown.value, ed.patch);
    } else if ed.base.Some? {
      ReportedIffReadingChanges(k, ed.base.value, ed.patch);
    }
  }

  // Staying in order ----------------------------------------------------------------

  /** Every copy of the issue in the window is the one the coordinator found. */
  ghost predicate OneCopy(issues: seq<Issue>, copy: Issue) {
    forall i <- issues :: i.id == copy.id ==> i == copy
  }

  /** State j of the issue has the other issues of the window on the same sides as
      state i. */
  ghost predicate SameSides(l: Locale, issues: seq<Issue>, i: Issue, j: Issue, sort: SortParam) {
    forall o <- issues :: o.id != i.id ==> (Before(l, j, o, sort) <==> Before(l, i, o, sort))
  }

  /** Of two issues one comes first, whatever their values. */
  lemma OneComesFirst(l: Locale, a: Issue, b: Issue, sort: SortParam)
    requires a.id != b.id
    ensures Before(l, a, b, sort) <==> !Before(l, b, a, sort)
  {
    TieBreakIsTotal(a, b);
  }

  lemma OneIndex(l: Locale, issues: seq<Issue>, n: nat, sort: SortParam)
    requires StrictlySorted(l, issues, sort) && n < |issues| && OneCopy(issues, issues[n])
    ensures forall k :: 0 <= k < |issues| && k != n ==> issues[k].id != issues[n].id
  {
    forall k | 0 <= k < |issues| && k != n
      ensures issues[k].id != issues[n].id
    {
      assert issues[k] in issues;
      CompareIsAntisymmetric(l, issues[n], issues[n], sort);
    }
  }

  /** The patched copy at its place among the others. */
  ghost predicate FitsAt(l: Locale, issues: seq<Issue>, n: nat, j: Issue, sort: SortParam)
    requires n < |issues|
  {
    forall k :: 0 <= k < |issues| && k != n ==> (Before(l, j, issues[k], sort) <==> n < k)
  }

  lemma SortedIffFits(l: Locale, issues: seq<Issue>, n: nat, j: Issue, sort: SortParam)
    requires StrictlySorted(l, issues, sort) && n < |issues|
    requires forall k :: 0 <= k < |issues| && k != n ==> issues[k].id != j.id
    ensures StrictlySorted(l, issues[n := j], sort) <==> FitsAt(l, issues, n, j, sort)
  {
    var next := issues[n := j];
    forall k | 0 <= k < |issues| && k != n
      ensures Before(l, j, issues[k], sort) <==> !Before(l, issues[k], j, sort)
    {
      OneComesFirst(l, j, issues[k], sort);
    }
    if StrictlySorted(l, next, sort) {
      forall k | 0 <= k < |issues| && k != n
        ensures Before(l, j, issues[k], sort) <==> n < k
      {
        assert next[k] == issues[k] && next[n] == j;
      }
    }
  }

  /** A sorted window stays sorted under an in-place patch, for whatever sort, exactly
      when the patched issue has the other issues of the window on the same sides. */
  lemma PatchedStaysSortedIff(l: Locale, issues: seq<Issue>, copy: Issue, p: PartialIssue, sort: SortParam)
    requires StrictlySorted(l, issues, sort) && copy in issues && OneCopy(issues, copy) && KeepsIdentity(p, copy)
    ensures
      StrictlySorted(l, PatchInPlace(issues, copy.id, p), sort)
      <==> SameSides(l, issues, copy, Merge(copy, p), sort)
  {
    var n :| 0 <= n < |issues| && issues[n] == copy;
    var j := Merge(copy, p);
    OneIndex(l, issues, n, sort);
    assert PatchInPlace(issues, copy.id, p) == issues[n := j];
    SortedIffFits(l, issues, n, j, sort);
    SortedIffFits(l, issues, n, copy, sort);
    assert issues[n := copy] == issues;
    if SameSides(l, issues, copy, j, sort) {
      forall k | 0 <= k < |issues| && k != n
        ensures Before(l, j, issues[k], sort) <==> n < k
      {
        assert issues[k] in issues;
      }
    }
  }

  /** An issue that keeps its sort key has every issue on the same side. */
  lemma SameKeySameSides(l: Locale, issues: seq<Issue>, i: Issue, j: Issue, sort: SortParam)
    requires i.id == j.id && i.createdAt == j.createdAt && !sort.sortBy.GetOr(ByPosition).ByProperty?
    requires KeyOf(l, i, sort) == KeyOf(l, j, sort)
    ensures SameSides(l, issues, i, j, sort)
  {
    forall o | o in issues
      ensures Before(l, j, o, sort) <==> Before(l, i, o, sort)
    {
      CompareIsLexicographic(l, i, o, sort);
      CompareIsLexicographic(l, j, o, sort);
    }
  }

  /** So has one that keeps its values, under a custom-property sort. */
  lemma SameValuesSameSides(l: Locale, issues: seq<Issue>, i: Issue, j: Issue, sort: SortParam)
    requires i.id == j.id && i.createdAt == j.createdAt && sort.sortBy.GetOr(ByPosition).ByProperty?
    requires i.properties.values == j.properties.values
    ensures SameSides(l, issues, i, j, sort)
  {
    forall o | o in issues
      ensures CompareIssuesForSort(l, j, o, sort) == CompareIssuesForSort(l, i, o, sort)
    {
    }
  }

  lemma UnreportedKeepsSides(l: Locale, key: Key, issues: seq<Issue>, ed: Edit, copy: Issue)
    requires key.FlatKey? && !key.sort.sortBy.GetOr(ByPosition).ByProperty?
    requires KeepsIdentity(ed.patch, copy) && Covers(ed.changed, copy, Merge(copy, ed.patch))
    requires !FlatWindowNeedsReconcile(key, ed.patch, Some(copy), ed.changed)
    ensures SameSides(l, issues, copy, Merge(copy, ed.patch), key.sort)
  {
    NoReconcileKeepsKey(l, key, copy, ed.patch, ed.changed);
    SameKeySameSides(l, issues, copy, Merge(copy, ed.patch), key.sort);
  }

  /** The main result: sorted before, then sorted or stale after. Under a
      custom-property sort, where the coordinator does not look at the value, a window
      that is not reported stale is sorted exactly when the issue keeps its sides. */
  lemma WindowStaysSorted(l: Locale, key: Key, pages: seq<Page>, ed: Edit, copy: Issue)
    requires key.FlatKey?
    requires LastById(PageIssues(pages), ed.id) == Some(copy) && OneCopy(PageIssues(pages), copy)
    requires KeepsIdentity(ed.patch, copy) && Covers(ed.changed, copy, Merge(copy, ed.patch))
    requires StrictlySorted(l, PageIssues(pages), key.sort)
    ensures
      || FlatWindowNeedsReconcile(key, ed.patch, Some(copy), ed.changed)
      || (StrictlySorted(l, PageIssues(PatchPages(pages, ed.id, ed.patch)), key.sort)
          <==> (key.sort.sortBy.GetOr(ByPosition).ByProperty? ==>
                  SameSides(l, PageIssues(pages), copy, Merge(copy, ed.patch), key.sort)))
  {
    PatchedPageIssues(pages, ed.id, ed.patch);
    PatchedStaysSortedIff(l, PageIssues(pages), copy, ed.patch, key.sort);
    if !FlatWindowNeedsReconcile(key, ed.patch, Some(copy), ed.changed)
       && !key.sort.sortBy.GetOr(ByPosition).ByProperty? {
      UnreportedKeepsSides(l, key, PageIssues(pages), ed, copy);
    }
  }

  // Properties --------------------------------------------------------------------------

  /** An edit that changes nothing but the property bag, as an event with the whole
      issue does, is reported exactly to windows that look at the update time. */
  lemma PropertyEditStaleIff(key: Key, i: Issue, p: PartialIssue, bag: PropertyBag)
    requires key.FlatKey? && Merge(i, p) == i.(properties := bag)
    ensures
      FlatWindowNeedsReconcile(key, p, Some(i), IssueChangedDims(p, Some(i)))
      <==> bag != i.properties && (key.sort.dateField == Some(UpdatedAtField) || key.sort.sortBy == Some(ByUpdatedAt))
  {
  }

  /** A window sorted by a property that an event with the whole issue leaves out of
      order without a report. */
  lemma PropertyEditGoesUnnoticed(l: Locale, i: Issue, key: Key)
    requires key == FlatKey("workspace:all",
                            FlatFilter(Membership.NO_FILTER, "", [], [], [], false, [], [], false, [], false, []),
                            SortParam(Some(ByProperty("size")), false, None, None, None, map[]))
    ensures
      var first := i.(id := "a", properties := PropertyBag(0, map["size" := Number(1.0)]));
      var second := i.(id := "b", properties := PropertyBag(1, map["size" := Number(2.0)]));
      var p := Whole(first.(properties := PropertyBag(2, map["size" := Number(3.0)])));
      var pages := [Page([first, second], 2)];
      && StrictlySorted(l, PageIssues(pages), key.sort)
      && !FlatWindowNeedsReconcile(key, p, Some(first), IssueChangedDims(p, Some(first)))
      && !StrictlySorted(l, PageIssues(PatchPages(pages, "a", p)), key.sort)
  {
    var first := i.(id := "a", properties := PropertyBag(0, map["size" := Number(1.0)]));
    var second := i.(id := "b", properties := PropertyBag(1, map["size" := Number(2.0)]));
    var p := Whole(first.(properties := PropertyBag(2, map["size" := Number(3.0)])));
    var pages := [Page([first, second], 2)];
    assert PageIssues(pages) == [first, second] by {
      assert pages[1..] == [];
    }
    PatchedPageIssues(pages, "a", p);
    PropertyEditStaleIff(key, first, p, p.properties.value);
    var after := PatchInPlace([first, second], "a", p);
    assert after[0] == Merge(first, p) && after[1] == second;
    assert CompareIssuesForSort(l, after[0], after[1], key.sort) > 0;
  }

  // Membership ------------------------------------------------------------------------

  /** How the server reads a search text, a date range, creators, labels and property
      values. */
  datatype Reader = Reader(
    search: (string, string) -> bool,
    inRange: (Option<string>, Option<string>, int) -> bool,
    createdBy: (seq<ActorRef>, string) -> bool,
    labelled: (seq<string>, seq<string>) -> bool,
    hasValues: (map<string, seq<string>>, map<string, PropertyValue>) -> bool)

  predicate AssigneeFacet(f: FlatFilter, i: Issue) {
    || (f.assigneeFilters == [] && !f.includeNoAssignee)
    || (f.includeNoAssignee && i.assigneeId.None?)
    || exists r <- f.assigneeFilters :: Some(r.actorType) == i.assigneeType && Some(r.id) == i.assigneeId
  }

  predicate ProjectFacet(f: FlatFilter, i: Issue) {
    || (f.projectIds == [] && !f.includeNoProject)
    || (f.includeNoProject && i.projectId.None?)
    || (i.projectId.Some? && i.projectId.value in f.projectIds)
  }

  predicate DateFacet(r: Reader, sort: SortParam, i: Issue) {
    match sort.dateField
    case None => true
    case Some(CreatedAtField) => r.inRange(sort.dateStart, sort.dateEnd, i.createdAt)
    case Some(UpdatedAtField) => r.inRange(sort.dateStart, sort.dateEnd, i.updatedAt)
  }

  predicate LabelFacet(r: Reader, f: FlatFilter, i: Issue) {
    f.labelIds != [] ==> r.labelled(f.labelIds, i.labels)
  }

  predicate PropertyFacet(r: Reader, sort: SortParam, i: Issue) {
    sort.properties != map[] ==> r.hasValues(sort.properties, i.properties.values)
  }

  /** The facets the coordinator decides by, and those no edit touches. */
  predicate Admitted(server: Server, r: Reader, key: Key, i: Issue)
    requires key.FlatKey?
  {
    var f := key.flatFilter;
    && Matches(server, Some(key.flatScope), f.list, i)
    && (f.q != "" ==> r.search(f.q, i.title))
    && (f.statuses != [] ==> i.status in f.statuses)
    && (f.priorities != [] ==> i.priority in f.priorities)
    && AssigneeFacet(f, i) && ProjectFacet(f, i)
    && (f.creatorFilters != [] ==> r.createdBy(f.creatorFilters, i.creatorId))
    && (f.topLevelOnly ==> i.parentId.None?)
    && (f.ids != [] ==> i.id in f.ids)
    && DateFacet(r, key.sort, i)
  }

  /** The facets the coordinator does not look at. */
  predicate Unwatched(r: Reader, key: Key, i: Issue)
    requires key.FlatKey?
  {
    LabelFacet(r, key.flatFilter, i) && PropertyFacet(r, key.sort, i)
  }

  /** The issue belongs in the flat window. */
  predicate InWindow(server: Server, r: Reader, key: Key, i: Issue)
    requires key.FlatKey?
  {
    Admitted(server, r, key, i) && Unwatched(r, key, i)
  }

  lemma NoReconcileKeepsAdmission(server: Server, r: Reader, key: Key, i: Issue, p: PartialIssue, changed: ChangedDims)
    requires key.FlatKey? && KeepsIdentity(p, i) && Covers(changed, i, Merge(i, p))
    requires !FlatWindowNeedsReconcile(key, p, Some(i), changed)
    ensures Admitted(server, r, key, i) <==> Admitted(server, r, key, Merge(i, p))
  {
    UntouchedFilterKeepsMembership(server, Some(key.flatScope), key.flatFilter.list, changed, i, Merge(i, p));
  }

  /** Without a stale report the issue stays in or out of the window exactly when it
      is not admitted anyway or the label and property facets read it as before. */
  lemma NoReconcileKeepsMembership(server: Server, r: Reader, key: Key, i: Issue, p: PartialIssue, changed: ChangedDims)
    requires key.FlatKey? && KeepsIdentity(p, i) && Covers(changed, i, Merge(i, p))
    requires !FlatWindowNeedsReconcile(key, p, Some(i), changed)
    ensures
      (InWindow(server, r, key, i) <==> InWindow(server, r, key, Merge(i, p)))
      <==> (Admitted(server, r, key, i) ==> (Unwatched(r, key, i) <==> Unwatched(r, key, Merge(i, p))))
  {
    NoReconcileKeepsAdmission(server, r, key, i, p, changed);
  }

  /** In particular when the window has neither facet, or the patch leaves labels and
      properties alone. */
  lemma NoFacetNoChange(r: Reader, key: Key, i: Issue, p: PartialIssue)
    requires key.FlatKey?
    requires
      || (key.flatFilter.labelIds == [] && key.sort.properties == map[])
      || (p.labels.GetOr(i.labels) == i.labels && p.properties.GetOr(i.properties).values == i.properties.values)
    ensures Unwatched(r, key, i) <==> Unwatched(r, key, Merge(i, p))
  {
  }
}
