/** A created issue enters the cache: the success handler of the mutation
    (packages/core/issues/mutations.ts, useCreateIssue) and the event handler
    (packages/core/issues/ws-updaters.ts, onIssueCreated). */
module CreateIssue {
  import opened IssueTypes
  import opened Buckets
  import opened BucketLaws
  import opened QueryCache
  import opened Coordinator
  import opened CoordinatorLaws
  import opened ApplyChange
  import opened DeleteCache

  /** The entry under key k once the issue was created. */
  function CreatedEntry(k: Key, e: Entry, issue: Issue): Entry {
    if k.BoardKey? && e.Board? then Board(AddIssueToBuckets(e.cache, issue)) else e
  }

  function Created(entries: Entries, issue: Issue): Entries {
    map k | k in entries :: CreatedEntry(k, entries[k], issue)
  }

  /** What is invalidated: by both handlers the flat windows and tables; by the
      mutation the boards, by the event handler everything of the "my" family. */
  predicate CreationInvalidates(k: Key, issue: Issue, own: bool) {
    || k.FlatKey? || k.FlatExportKey? || k.TableKey?
    || (k.ChildrenKey? && k.parentId in Truthy(issue.parentId))
    || (if own then k.BoardKey? else k.MyBoardKey?)
    || k.MyGroupsKey?
  }

  function CreationKeys(entries: Entries, issue: Issue, own: bool): set<Key> {
    set k | k in entries && CreationInvalidates(k, issue, own)
  }

  /** A list that may have to show the new issue. */
  predicate MayShow(k: Key) {
    k.BoardKey? || k.MyBoardKey? || k.MyGroupsKey? || k.FlatKey? || k.FlatExportKey? || k.TableKey?
  }

  /** Every list that may have to show it is invalidated or gets it added, except those of
      the "my" family when the issue is this client's own; boards are invalidated for an
      own issue only, and of the lists of children only the parent's is. */
  lemma CreationReachesIff(k: Key, issue: Issue, own: bool)
    ensures MayShow(k) ==> (CreationInvalidates(k, issue, own) || k.BoardKey? <==> !(own && k.MyBoardKey?))
    ensures k.BoardKey? ==> (CreationInvalidates(k, issue, own) <==> own)
    ensures k.ChildrenKey? ==>
      (CreationInvalidates(k, issue, own) <==> k.parentId != "" && issue.parentId == Some(k.parentId))
    ensures !MayShow(k) && !k.ChildrenKey? ==> !CreationInvalidates(k, issue, own)
  {
  }

  function CreateAll(entries: Entries, visited: seq<Snapshot>, issue: Issue): Entries {
    if visited == [] then entries
    else
      var last := visited[|visited| - 1];
      CreateAll(entries, visited[..|visited| - 1], issue)[last.key := CreatedEntry(last.key, last.entry, issue)]
  }

  lemma {:induction false} CreateAllAt(entries: Entries, visited: seq<Snapshot>, issue: Issue, k: Key)
    requires Sampled(visited, entries)
    ensures CreateAll(entries, visited, issue).Keys == entries.Keys
    ensures k in entries ==>
      CreateAll(entries, visited, issue)[k] ==
      if Snapshot(k, entries[k]) in visited then CreatedEntry(k, entries[k], issue) else entries[k]
  {
    if visited == [] {
    } else {
      var n := |visited| - 1;
      CreateAllAt(entries, visited[..n], issue, k);
      assert visited == visited[..n] + [visited[n]];
      assert visited[n] in visited;
    }
  }

  /** One more entry visited, which so far is as it was. */
  lemma CreateOneMore(entries: Entries, view: seq<Snapshot>, n: nat, issue: Issue)
    requires Sampled(view, entries) && n < |view|
    ensures
      var before, s := CreateAll(entries, view[..n], issue), view[n];
      && s.key in before && before[s.key] == s.entry
      && CreateAll(entries, view[..n + 1], issue) == before[s.key := CreatedEntry(s.key, s.entry, issue)]
  {
    assert view[..n + 1][..n] == view[..n] && view[..n + 1][n] == view[n];
    assert view[n] in view;
    CreateAllAt(entries, view[..n], issue, view[n].key);
  }

  /** The loop over the boards. */
  method AddToEach(qc: QueryClient, view: seq<Snapshot>, issue: Issue)
    requires qc.Valid() && Sampled(view, qc.entries) && forall s <- view :: s.key.BoardKey?
    modifies qc`order, qc`entries
    ensures qc.Valid() && qc.order == old(qc.order)
    ensures qc.entries == CreateAll(old(qc.entries), view, issue)
  {
    ghost var was := qc.entries;
    for n := 0 to |view|
      invariant qc.Valid() && qc.order == old(qc.order)
      invariant qc.entries == CreateAll(was, view[..n], issue)
    {
      CreateOneMore(was, view, n, issue);
      assert view[n] in view;
      if view[n].entry.Board? {
        qc.SetQueryData(view[n].key, Board(AddIssueToBuckets(view[n].entry.cache, issue)));
      }
    }
    assert view[..|view|] == view;
  }

  method AddToBoards(qc: QueryClient, issue: Issue)
    requires qc.Valid()
    modifies qc`order, qc`entries
    ensures qc.Valid() && qc.order == old(qc.order)
    ensures qc.entries == Created(old(qc.entries), issue)
  {
    ghost var was := qc.entries;
    var view := QueriesData(qc.order, qc.entries, (k: Key) => k.BoardKey?);
    AddToEach(qc, view, issue);
    forall k | k in was
      ensures qc.entries.Keys == was.Keys && qc.entries[k] == CreatedEntry(k, was[k], issue)
    {
      CreateAllAt(was, view, issue, k);
    }
    CreateAllAt(was, view, issue, InboxKey);
  }

  method OnIssueCreated(qc: QueryClient, issue: Issue, own: bool) returns (invalidated: set<Key>)
    requires qc.Valid()
    modifies qc`order, qc`entries
    ensures qc.Valid() && qc.order == old(qc.order)
    ensures qc.entries == Created(old(qc.entries), issue)
    ensures invalidated == CreationKeys(old(qc.entries), issue, own)
  {
    AddToBoards(qc, issue);
    invalidated := CreationKeys(qc.entries, issue, own);
  }

  // Totals ------------------------------------------------------------------------------

  /** The issue is news to the server's lists, and to the board. */
  predicate Enters(b: Backend, world: World, t: Contract, issue: Issue) {
    issue.id !in world && Listed(b, t, issue)
  }

  predicate CountedIn(k: Key, c: ListCache, issue: Issue) {
    k.BoardKey? && FindIssueLocation(c, issue.id).None?
  }

  function NextBoard(k: Key, c: ListCache, issue: Issue): ListCache {
    if k.BoardKey? then AddIssueToBuckets(c, issue) else c
  }

  lemma CountInsert(b: Backend, world: World, t: Contract, issue: Issue, s: Status)
    requires issue.id in world ==> world[issue.id] == issue
    ensures
      TrueCount(b, world[issue.id := issue], t, s) ==
      TrueCount(b, world, t, s) + One(Enters(b, world, t, issue) && issue.status == s)
  {
    if issue.id in world {
      assert world[issue.id := issue] == world;
    } else {
      SizesAfter(ListedIds(b, world, t, s), ListedIds(b, world[issue.id := issue], t, s), issue.id);
    }
  }

  /** What the handler does to a board with true copies: an issue that is loaded stays,
      one that is not is counted in and loaded. */
  lemma AddedOnce(k: Key, c: ListCache, issue: Issue)
    requires Shaped(c)
    requires forall i :: Loaded(c, i) && i.id == issue.id ==> i == issue
    ensures
      var next := NextBoard(k, c, issue);
      && Shaped(next)
      && (forall s: Status :: Total(next, s) == Total(c, s) + One(CountedIn(k, c, issue) && issue.status == s))
      && (forall i :: Loaded(next, i) <==> Loaded(c, i) || (CountedIn(k, c, issue) && i == issue))
  {
    Found(c, issue.id);
    if FindIssueLocation(c, issue.id).Some? {
      FoundBucket(c, issue.id);
    } else if k.BoardKey? {
      var next := AddIssueToBuckets(c, issue);
      AddIsInsert(c, issue);
      forall i
        ensures Loaded(next, i) <==> Loaded(c, i) || i == issue
      {
        LoadedIsFound(next, i);
        LoadedIsFound(c, i);
      }
    }
  }

  /** A board with true totals has them after the creation exactly when it counts the
      issue in where, and only where, the issue is new to the list: not if the board's
      window hides it, not if the board was fetched since and has the issue on a page
      that is not loaded, and not on a list of the "my" family that it belongs to. */
  lemma CreationTotalsIff(b: Backend, world: World, k: Key, c: ListCache, issue: Issue)
    requires Accurate(b, world, ListContractFromKey(k), c)
    requires issue.id in world ==> world[issue.id] == issue
    ensures
      var t := ListContractFromKey(k);
      TotalsExact(b, world[issue.id := issue], t, NextBoard(k, c, issue))
      <==> (CountedIn(k, c, issue) <==> Enters(b, world, t, issue))
  {
    var t := ListContractFromKey(k);
    AddedOnce(k, c, issue);
    forall s: Status
      ensures Total(NextBoard(k, c, issue), s) ==
              TrueCount(b, world, t, s) + One(CountedIn(k, c, issue) && issue.status == s)
      ensures TrueCount(b, world[issue.id := issue], t, s) ==
              TrueCount(b, world, t, s) + One(Enters(b, world, t, issue) && issue.status == s)
    {
      assert Total(c, s) == TrueCount(b, world, t, s);
      CountInsert(b, world, t, issue, s);
    }
    assert Total(NextBoard(k, c, issue), issue.status) ==
           TrueCount(b, world, t, issue.status) + One(CountedIn(k, c, issue));
  }

  /** And is then accurate altogether. */
  lemma CreationKeepsAccurate(b: Backend, world: World, k: Key, c: ListCache, issue: Issue)
    requires Accurate(b, world, ListContractFromKey(k), c)
    requires issue.id in world ==> world[issue.id] == issue
    requires CountedIn(k, c, issue) <==> Enters(b, world, ListContractFromKey(k), issue)
    ensures Accurate(b, world[issue.id := issue], ListContractFromKey(k), NextBoard(k, c, issue))
  {
    CreationTotalsIff(b, world, k, c, issue);
    AddedOnce(k, c, issue);
  }
}
