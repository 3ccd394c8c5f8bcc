/** The handlers of property and label changes (packages/core/issues/ws-updaters.ts):
    they patch one field of an issue wherever it is cached and invalidate the views
    that may read the field. */
module FieldHandlers {
  import opened IssueTypes
  import opened Membership
  import opened Buckets
  import opened BucketLaws
  import opened QueryCache
  import opened Coordinator
  import opened CoordinatorLaws
  import opened ApplyChange
  import opened IssueOrder
  import opened FlatWindows

  datatype Field = Properties(bag: PropertyBag) | Labels(labels: seq<string>)

  function FieldPatch(f: Field): PartialIssue {
    match f
    case Properties(bag) => EMPTY_PATCH.(properties := Some(bag))
    case Labels(labels) => EMPTY_PATCH.(labels := Some(labels))
  }

  /** The patch sets the field the event carries, and no other. */
  lemma PatchSetsField(i: Issue, f: Field)
    ensures
      Merge(i, FieldPatch(f)) ==
      match f
      case Properties(bag) => i.(properties := bag)
      case Labels(labels) => i.(labels := labels)
  {
  }

  // Patching -------------------------------------------------------------------------

  /** An entry as the handlers leave it; lists of the "my" family are not among those
      they rewrite. */
  function HandledEntry(k: Key, e: Entry, id: string, p: PartialIssue): Entry {
    if k.BoardKey? && e.Board? then Board(PatchIssueInBuckets(e.cache, id, p))
    else if IsWindow(k, e) then e.(pages := PatchPages(e.pages, id, p))
    else if IsTable(k, e) then e.(rows := PatchRows(e.rows, id, p))
    else if k.ChildrenKey? && e.IssueList? then IssueList(PatchInPlace(e.issues, id, p))
    else if k == DetailKey(id) && e.IssueData? then IssueData(Merge(e.issue, p))
    else e
  }

  function Handled(entries: Entries, id: string, p: PartialIssue): Entries {
    map k | k in entries :: HandledEntry(k, entries[k], id, p)
  }

  function HandleAll(entries: Entries, visited: seq<Snapshot>, id: string, p: PartialIssue): Entries {
    if visited == [] then entries
    else
      var last := visited[|visited| - 1];
      HandleAll(entries, visited[..|visited| - 1], id, p)[last.key := HandledEntry(last.key, last.entry, id, p)]
  }

  lemma {:induction false} HandleAllAt(entries: Entries, visited: seq<Snapshot>, id: string, p: PartialIssue, k: Key)
    requires Sampled(visited, entries)
    ensures HandleAll(entries, visited, id, p).Keys == entries.Keys
    ensures k in entries ==>
      HandleAll(entries, visited, id, p)[k] ==
      if Snapshot(k, entries[k]) in visited then HandledEntry(k, entries[k], id, p) else entries[k]
  {
    if visited == [] {
    } else {
      var n := |visited| - 1;
      HandleAllAt(entries, visited[..n], id, p, k);
      assert visited == visited[..n] + [visited[n]];
      assert visited[n] in visited;
    }
  }

  method HandleEach(qc: QueryClient, view: seq<Snapshot>, id: string, p: PartialIssue)
    requires qc.Valid() && Sampled(view, qc.entries)
    modifies qc`order, qc`entries
    ensures qc.Valid() && qc.order == old(qc.order)
    ensures qc.entries == HandleAll(old(qc.entries), view, id, p)
  {
    ghost var was := qc.entries;
    for n := 0 to |view|
      invariant qc.Valid() && qc.order == old(qc.order)
      invariant qc.entries == HandleAll(was, view[..n], id, p)
    {
      assert view[..n + 1][..n] == view[..n] && view[..n + 1][n] == view[n];
      assert view[n] in view;
      HandleAllAt(was, view[..n], id, p, view[n].key);
      qc.SetQueryData(view[n].key, HandledEntry(view[n].key, qc.entries[view[n].key], id, p));
    }
    assert view[..|view|] == view;
  }

  predicate HandledFamily(k: Key, id: string) {
    k.BoardKey? || k.FlatKey? || k.TableKey? || k.ChildrenKey? || k == DetailKey(id)
  }

  /** patchIssueProperties and patchIssueLabels */
  method PatchIssueField(qc: QueryClient, id: string, f: Field)
    requires qc.Valid()
    modifies qc`order, qc`entries
    ensures qc.Valid() && qc.order == old(qc.order)
    ensures qc.entries == Handled(old(qc.entries), id, FieldPatch(f))
  {
    ghost var was := qc.entries;
    var view := QueriesData(qc.order, qc.entries, (k: Key) => HandledFamily(k, id));
    HandleEach(qc, view, id, FieldPatch(f));
    forall k | k in was
      ensures qc.entries.Keys == was.Keys && qc.entries[k] == HandledEntry(k, was[k], id, FieldPatch(f))
    {
      HandleAllAt(was, view, id, FieldPatch(f), k);
    }
    HandleAllAt(was, view, id, FieldPatch(f), InboxKey);
  }

  // Invalidating ---------------------------------------------------------------------

  function SortOf(k: Key): SortParam {
    match k
    case BoardKey(sort) => sort
    case MyBoardKey(_, _, sort) => sort
    case FlatKey(_, _, sort) => sort
    case _ => NO_SORT
  }

  /** invalidatePropertyWindowQueries */
  predicate PropertyWindow(k: Key) {
    SortOf(k).properties != map[] || SortOf(k).sortBy.GetOr(ByPosition).ByProperty?
  }

  /** invalidateUpdatedAtSortedIssueLists */
  predicate UpdatedAtSorted(k: Key) {
    SortOf(k).sortBy == Some(ByUpdatedAt)
  }

  predicate Invalidated(k: Key, f: Field) {
    || k.ChildrenKey? || k.MyBoardKey? || k.MyGroupsKey? || k.TableKey?
    || (f.Properties? && (PropertyWindow(k) || UpdatedAtSorted(k)))
    || (f.Labels? && k.FlatKey? && k.flatFilter.labelIds != [])
  }

  function InvalidatedKeys(entries: Entries, f: Field): set<Key> {
    set k | k in entries && Invalidated(k, f)
  }

  /** onIssuePropertiesChanged and onIssueLabelsChanged, with the keys they invalidate. */
  method OnIssueFieldChanged(qc: QueryClient, id: string, f: Field) returns (invalidated: set<Key>)
    requires qc.Valid()
    modifies qc`order, qc`entries
    ensures qc.Valid() && qc.order == old(qc.order)
    ensures qc.entries == Handled(old(qc.entries), id, FieldPatch(f))
    ensures invalidated == InvalidatedKeys(old(qc.entries), f)
  {
    PatchIssueField(qc, id, f);
    invalidated := InvalidatedKeys(qc.entries, f);
  }

  /** Of the flat windows and boards exactly those are invalidated that filter or sort by
      a property or sort by the update time, if it is properties that changed, and the
      windows that filter by labels, if it is labels. */
  lemma ListInvalidatedIff(k: Key, f: Field)
    requires k.FlatKey? || k.BoardKey?
    ensures
      var sort := k.sort;
      Invalidated(k, f) <==>
      match f
      case Properties(_) => sort.properties != map[] || sort.sortBy == Some(ByUpdatedAt)
                            || (sort.sortBy.Some? && sort.sortBy.value.ByProperty?)
      case Labels(_) => k.FlatKey? && k.flatFilter.labelIds != []
  {
  }

  // What is left alone ---------------------------------------------------------------

  /** The issue on the server after the change, whose update time may move along. */
  function Stamped(i: Issue, f: Field, now: int): Issue {
    Merge(i, FieldPatch(f)).(updatedAt := now)
  }

  /** A flat window that is not invalidated sorts the issue as before, unless it is
      sorted by the update time and that moved along with a label. */
  lemma LeftAloneKeepsKey(l: Locale, key: Key, i: Issue, f: Field, now: int)
    requires key.FlatKey? && !Invalidated(key, f)
    ensures
      KeyOf(l, Stamped(i, f, now), key.sort) == KeyOf(l, i, key.sort)
      <==> !UpdatedAtSorted(key) || now == i.updatedAt
  {
  }

  function Dateless(key: Key): Key
    requires key.FlatKey?
  {
    FlatKey(key.flatScope, key.flatFilter, key.sort.(dateField := None))
  }

  /** A sorted flat window that is not invalidated stays sorted, custom-property sorts
      included: a label change does not touch values, and a property change
      invalidates them. */
  lemma LeftAloneStaysSorted(l: Locale, key: Key, pages: seq<Page>, copy: Issue, f: Field)
    requires key.FlatKey? && !Invalidated(key, f)
    requires copy in PageIssues(pages) && OneCopy(PageIssues(pages), copy)
    requires StrictlySorted(l, PageIssues(pages), key.sort)
    ensures StrictlySorted(l, PageIssues(PatchPages(pages, copy.id, FieldPatch(f))), key.sort)
  {
    var issues, j := PageIssues(pages), Merge(copy, FieldPatch(f));
    PatchedPageIssues(pages, copy.id, FieldPatch(f));
    PatchedStaysSortedIff(l, issues, copy, FieldPatch(f), key.sort);
    forall o | o in issues
      ensures Before(l, j, o, key.sort) <==> Before(l, copy, o, key.sort)
    {
      ComparesAsBefore(l, key.sort, copy, j, o, f);
    }
  }

  lemma ComparesAsBefore(l: Locale, sort: SortParam, i: Issue, j: Issue, o: Issue, f: Field)
    requires j == Merge(i, FieldPatch(f))
    requires f.Labels? || !sort.sortBy.GetOr(ByPosition).ByProperty?
    ensures CompareIssuesForSort(l, j, o, sort) == CompareIssuesForSort(l, i, o, sort)
  {
  }

  /** A flat window that is not invalidated keeps or gains the issue exactly as a
      date range over the update time, which the handlers do not look at, reads it. */
  lemma LeftAloneMembershipIff(server: Server, r: Reader, key: Key, i: Issue, f: Field, now: int)
    requires key.FlatKey? && !Invalidated(key, f)
    ensures
      var j := Stamped(i, f, now);
      var others := InWindow(server, r, Dateless(key), i);
      && ((InWindow(server, r, key, i) <==> InWindow(server, r, key, j))
          <==> (others ==> (DateFacet(r, key.sort, i) <==> DateFacet(r, key.sort, j))))
      && (key.sort.dateField != Some(UpdatedAtField) ==> (DateFacet(r, key.sort, i) <==> DateFacet(r, key.sort, j)))
  {
    var j, dateless := Stamped(i, f, now), Dateless(key);
    assert OwnershipOf(i) == OwnershipOf(j);
    assert InWindow(server, r, dateless, i) <==> InWindow(server, r, dateless, j);
  }

  /** A list's window reads creation and update times only if it has a range for them, and
      property values only if it filters by them. */
  ghost predicate ReadsItsFilters(b: Backend) {
    forall sort: SortParam, i: Issue, j: Issue ::
      && (sort.dateField == Some(CreatedAtField) ==> i.createdAt == j.createdAt)
      && (sort.dateField == Some(UpdatedAtField) ==> i.updatedAt == j.updatedAt)
      && (sort.properties != map[] ==> i.properties.values == j.properties.values)
      ==> b.passes(sort, i) == b.passes(sort, j)
  }

  /** So a board with true totals that is not invalidated keeps them. */
  lemma LeftAloneKeepsTotals(b: Backend, world: World, k: Key, c: ListCache, id: string, f: Field)
    requires Keyed(world) && id in world && Accurate(b, world, ListContractFromKey(k), c)
    requires k.BoardKey? && !Invalidated(k, f) && ReadsItsFilters(b)
    ensures
      TotalsExact(b, world[id := Merge(world[id], FieldPatch(f))], ListContractFromKey(k),
                  PatchIssueInBuckets(c, id, FieldPatch(f)))
  {
    var t, i, j := ListContractFromKey(k), world[id], Merge(world[id], FieldPatch(f));
    assert b.passes(t.sort, i) == b.passes(t.sort, j);
    assert OwnershipOf(i) == OwnershipOf(j);
    FieldKeepsTotalsIff(b, world, t, c, id, f);
  }

  /** Patching a field moves nothing on a board and counts nothing: true totals stay
      true exactly when the board's window hides the issue as before. */
  lemma FieldKeepsTotalsIff(b: Backend, world: World, t: Contract, c: ListCache, id: string, f: Field)
    requires Keyed(world) && id in world && Accurate(b, world, t, c)
    ensures
      var j := Merge(world[id], FieldPatch(f));
      TotalsExact(b, world[id := j], t, PatchIssueInBuckets(c, id, FieldPatch(f)))
      <==> Hidden(b, t, world[id]) == Hidden(b, t, j)
  {
    var i, j := world[id], Merge(world[id], FieldPatch(f));
    var next := PatchIssueInBuckets(c, id, FieldPatch(f));
    FieldKeepsTotals(c, id, f);
    assert OwnershipOf(i) == OwnershipOf(j);
    forall s: Status
      ensures Total(next, s) == TrueCount(b, world, t, s)
      ensures TrueCount(b, world[id := j], t, s) ==
        TrueCount(b, world, t, s) - One(i.status == s && Listed(b, t, i)) + One(i.status == s && Listed(b, t, j))
    {
      CountAfter(b, world, t, id, j, s);
    }
    assert Total(next, i.status) == TrueCount(b, world, t, i.status);
  }

  lemma FieldKeepsTotals(c: ListCache, id: string, f: Field)
    requires Shaped(c)
    ensures
      var next := PatchIssueInBuckets(c, id, FieldPatch(f));
      && Shaped(next)
      && (forall s: Status :: Total(next, s) == Total(c, s))
      && Contents(next) ==
         if id in Contents(c) then Contents(c)[id := Merge(Contents(c)[id], FieldPatch(f))] else Contents(c)
  {
    PatchIsUpdate(c, id, FieldPatch(f));
    Found(c, id);
    if FindIssueLocation(c, id).Some? {
      FoundBucket(c, id);
      PatchMovesTotal(c, id, FieldPatch(f));
    }
  }
}
