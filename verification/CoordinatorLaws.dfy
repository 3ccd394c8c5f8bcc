/** After an edit every bucketed list either has the true totals or is reported
    stale, except where the list hides issues behind a window the coordinator
    does not look at; that exception is stated exactly. */
module CoordinatorLaws {
  import opened IssueTypes
  import opened Membership
  import opened Buckets
  import opened BucketLaws
  import opened QueryCache
  import opened Coordinator

  /** The server's side: its membership rules, and what it lets through the date
      window and property filters of a list. */
  datatype Backend = Backend(server: Server, passes: (SortParam, Issue) -> bool)

  type World = map<string, Issue>

  ghost predicate Keyed(world: World) {
    forall id <- world :: world[id].id == id
  }

  /** The issue belongs to the list and its window shows it. */
  predicate Listed(b: Backend, t: Contract, i: Issue) {
    Matches(b.server, t.scope, t.filter, i) && b.passes(t.sort, i)
  }

  /** The issue matches the filter of the list but lies outside its window. */
  predicate Hidden(b: Backend, t: Contract, i: Issue) {
    Matches(b.server, t.scope, t.filter, i) && !b.passes(t.sort, i)
  }

  function ListedIds(b: Backend, world: World, t: Contract, s: Status): set<string> {
    set id | id in world && world[id].status == s && Listed(b, t, world[id])
  }

  function TrueCount(b: Backend, world: World, t: Contract, s: Status): nat {
    |ListedIds(b, world, t, s)|
  }

  ghost predicate TotalsExact(b: Backend, world: World, t: Contract, c: ListCache) {
    forall s: Status :: Total(c, s) == TrueCount(b, world, t, s)
  }

  ghost predicate CopiesTrue(b: Backend, world: World, t: Contract, c: ListCache) {
    forall i :: Loaded(c, i) ==> i.id in world && world[i.id] == i && Listed(b, t, i)
  }

  /** The list shows true copies of listed issues, under the true totals. */
  ghost predicate Accurate(b: Backend, world: World, t: Contract, c: ListCache) {
    Shaped(c) && TotalsExact(b, world, t, c) && CopiesTrue(b, world, t, c)
  }

  /** The two agree on whose the issue is and where it is filed. */
  predicate SameDims(i: Issue, j: Issue) {
    && i.id == j.id && i.creatorId == j.creatorId && i.status == j.status && i.projectId == j.projectId
    && i.assigneeType == j.assigneeType && i.assigneeId == j.assigneeId
  }

  /** The base issue, if any, agrees with the true one on the dimensions, and the
      changed dimensions miss nothing. */
  ghost predicate Informed(world: World, ed: Edit) {
    && Keyed(world) && ed.id in world
    && KeepsIdentity(ed.patch, world[ed.id])
    && (ed.base.Some? ==> SameDims(ed.base.value, world[ed.id]))
    && Covers(ed.changed, world[ed.id], Merge(world[ed.id], ed.patch))
  }

  function Edited(world: World, ed: Edit): World
    requires ed.id in world
  {
    world[ed.id := Merge(world[ed.id], ed.patch)]
  }

  function One(p: bool): nat {
    if p then 1 else 0
  }

  lemma SizesAfter<T>(before: set<T>, after: set<T>, x: T)
    requires after - {x} == before - {x}
    ensures |after| == |before| - One(x in before) + One(x in after)
  {
    assert |before - {x}| == |before| - One(x in before);
    assert |after - {x}| == |after| - One(x in after);
  }

  /** One issue's unit leaves the count it was in and enters the one it is in now. */
  lemma CountAfter(b: Backend, world: World, t: Contract, id: string, j: Issue, s: Status)
    requires id in world
    ensures
      var i := world[id];
      TrueCount(b, world[id := j], t, s) ==
      TrueCount(b, world, t, s) - One(i.status == s && Listed(b, t, i)) + One(j.status == s && Listed(b, t, j))
  {
    SizesAfter(ListedIds(b, world, t, s), ListedIds(b, world[id := j], t, s), id);
  }

  // What the step does to totals -------------------------------------------------------

  /** The totals after a step differ from those before by one unit out and one in,
      never below zero. */
  ghost predicate Shifted(c: ListCache, next: ListCache, i: Issue, leaves: bool, j: Issue, enters: bool) {
    forall s: Status :: Total(next, s) ==
      (if leaves && i.status == s then OneLess(Total(c, s)) else Total(c, s)) + One(enters && j.status == s)
  }

  lemma LoadedStepShifts(t: Contract, c: ListCache, ed: Edit)
    requires Shaped(c) && FindIssueLocation(c, ed.id).Some? && ed.patch.id.GetOr(ed.id) == ed.id
    ensures
      var i := FindIssueLocation(c, ed.id).value.issue;
      var j := Merge(i, ed.patch);
      var out := LoadedStep(t, c, i, ed);
      var refused := ListFilterDependsOn(t.scope, t.filter, ed.changed)
                  && IssueMatchesListFilter(Whole(j), t.scope, t.filter) == No;
      && (Total(c, i.status) > 0 ==> Shifted(c, out.next, i, true, j, !refused))
      && Shaped(out.next)
      && Contents(out.next) == if refused then Contents(c) - {ed.id} else Contents(c)[ed.id := j]
  {
    FoundBucket(c, ed.id);
    RemoveIsDelete(c, ed.id);
    RemoveTotals(c, ed.id);
    PatchIsUpdate(c, ed.id, ed.patch);
    PatchMovesTotal(c, ed.id, ed.patch);
  }

  /** Which way an unloaded issue moves, as far as the step can tell. */
  function Guess(t: Contract, i: Issue): Answer {
    IssueMatchesListFilter(Whole(i), t.scope, t.filter)
  }

  lemma SameDimsSameGuess(t: Contract, i: Issue, j: Issue, p: PartialIssue)
    requires SameDims(i, j)
    ensures Guess(t, i) == Guess(t, j)
    ensures SameDims(Merge(i, p), Merge(j, p)) && Guess(t, Merge(i, p)) == Guess(t, Merge(j, p))
  {
  }

  /** For an unloaded issue i, which the base agrees with. */
  lemma UnloadedStepShifts(t: Contract, c: ListCache, ed: Edit, i: Issue)
    requires !UnloadedStep(t, c, ed).stale
    requires ed.base.Some? && SameDims(ed.base.value, i)
    requires !ed.changed.status ==> ed.patch.status.GetOr(i.status) == i.status
    ensures
      var j := Merge(i, ed.patch);
      var out := UnloadedStep(t, c, ed);
      || (out.next == c && !ListFilterDependsOn(t.scope, t.filter, ed.changed) && i.status == j.status)
      || (out.next == c && Guess(t, i) == No && Guess(t, j) == No)
      || (out.next == c && Guess(t, i) == Yes && Guess(t, j) == Yes && i.status == j.status)
      || (out.next == DecrementBucketTotal(c, i.status) && Guess(t, i) == Yes && Guess(t, j) == No)
  {
    SameDimsSameGuess(t, ed.base.value, i, ed.patch);
  }

  // The main theorem -------------------------------------------------------------------

  /** A list that is not reported stale has the true totals after the edit if and
      only if the edit does not carry the issue into or out of hiding; a list that
      counts nothing where a hidden issue leaves gets away with it. */
  ghost predicate WindowHarmless(b: Backend, t: Contract, c: ListCache, i: Issue, j: Issue) {
    || Hidden(b, t, i) == Hidden(b, t, j)
    || (Hidden(b, t, i) && !Matches(b.server, t.scope, t.filter, j) && Total(c, i.status) == 0)
  }

  /** A loaded issue is counted under its new status unless the step refused it. */
  lemma LoadedBalance(b: Backend, world: World, t: Contract, c: ListCache, ed: Edit, s: Status)
    requires Informed(world, ed) && Accurate(b, world, t, c)
    requires FindIssueLocation(c, ed.id).Some?
    ensures
      var j := Merge(world[ed.id], ed.patch);
      var refused := ListFilterDependsOn(t.scope, t.filter, ed.changed) && Guess(t, j) == No;
      && FindIssueLocation(c, ed.id).value.issue == world[ed.id]
      && Total(LoadedStep(t, c, world[ed.id], ed).next, s) ==
         TrueCount(b, Edited(world, ed), t, s)
         + One(!refused && j.status == s) - One(Listed(b, t, j) && j.status == s)
  {
    var i, j := world[ed.id], Merge(world[ed.id], ed.patch);
    FoundBucket(c, ed.id);
    assert FindIssueLocation(c, ed.id).value.issue == i;
    CountIsPositive(b, world, t, i);
    assert Total(c, i.status) == TrueCount(b, world, t, i.status);
    assert Total(c, s) == TrueCount(b, world, t, s);
    LoadedStepShifts(t, c, ed);
    CountAfter(b, world, t, ed.id, j, s);
  }

  /** The step of a loaded issue counts exactly when it refuses exactly what the list
      does not show. */
  lemma LoadedExactIff(b: Backend, world: World, t: Contract, c: ListCache, ed: Edit)
    requires Informed(world, ed) && Accurate(b, world, t, c)
    requires FindIssueLocation(c, ed.id).Some?
    ensures
      var j := Merge(world[ed.id], ed.patch);
      var refused := ListFilterDependsOn(t.scope, t.filter, ed.changed) && Guess(t, j) == No;
      && FindIssueLocation(c, ed.id).value.issue == world[ed.id]
      && (TotalsExact(b, Edited(world, ed), t, LoadedStep(t, c, world[ed.id], ed).next)
          <==> refused == !Listed(b, t, j))
  {
    forall s: Status {
      LoadedBalance(b, world, t, c, ed, s);
    }
    LoadedBalance(b, world, t, c, ed, Merge(world[ed.id], ed.patch).status);
  }

  lemma LoadedTotalsIff(b: Backend, world: World, key: Key, c: ListCache, ed: Edit)
    requires Informed(world, ed) && Accurate(b, world, ListContractFromKey(key), c)
    requires FindIssueLocation(c, ed.id).Some? && !BoardStep(key, c, ed).stale
    ensures
      var t := ListContractFromKey(key);
      TotalsExact(b, Edited(world, ed), t, BoardStep(key, c, ed).next) <==>
      WindowHarmless(b, t, c, world[ed.id], Merge(world[ed.id], ed.patch))
  {
    var t := ListContractFromKey(key);
    var i, j := world[ed.id], Merge(world[ed.id], ed.patch);
    LoadedExactIff(b, world, t, c, ed);
    FoundBucket(c, ed.id);
    assert Listed(b, t, i);
    AnswersAbout(b, t, i, j, ed);
  }

  lemma CountIsPositive(b: Backend, world: World, t: Contract, i: Issue)
    requires i.id in world && world[i.id] == i && Listed(b, t, i)
    ensures TrueCount(b, world, t, i.status) > 0
  {
    assert i.id in ListedIds(b, world, t, i.status);
  }

  /** Definite answers about the issue before and after the edit are right, and an
      untouched filter answers the same. */
  lemma AnswersAbout(b: Backend, t: Contract, i: Issue, j: Issue, ed: Edit)
    requires KeepsIdentity(ed.patch, i) && j == Merge(i, ed.patch) && Covers(ed.changed, i, j)
    ensures Guess(t, i) == Yes ==> Matches(b.server, t.scope, t.filter, i)
    ensures Guess(t, i) == No ==> !Matches(b.server, t.scope, t.filter, i)
    ensures Guess(t, j) == Yes ==> Matches(b.server, t.scope, t.filter, j)
    ensures Guess(t, j) == No ==> !Matches(b.server, t.scope, t.filter, j)
    ensures !ListFilterDependsOn(t.scope, t.filter, ed.changed) ==>
      (Matches(b.server, t.scope, t.filter, i) <==> Matches(b.server, t.scope, t.filter, j))
  {
    DefiniteAnswersAreRight(b.server, Whole(i), i, t.scope, t.filter);
    DefiniteAnswersAreRight(b.server, Whole(j), j, t.scope, t.filter);
    if !ListFilterDependsOn(t.scope, t.filter, ed.changed) {
      UntouchedFilterKeepsMembership(b.server, t.scope, t.filter, ed.changed, i, j);
    }
  }

  lemma CountBalance(b: Backend, world: World, t: Contract, c: ListCache, ed: Edit, s: Status)
    requires Informed(world, ed) && Accurate(b, world, t, c)
    ensures
      var i, j := world[ed.id], Merge(world[ed.id], ed.patch);
      && TrueCount(b, Edited(world, ed), t, s) ==
         Total(c, s) - One(i.status == s && Listed(b, t, i)) + One(j.status == s && Listed(b, t, j))
      && (Listed(b, t, i) ==> Total(c, i.status) > 0)
  {
    var i, j := world[ed.id], Merge(world[ed.id], ed.patch);
    CountAfter(b, world, t, ed.id, j, s);
    assert Total(c, s) == TrueCount(b, world, t, s);
    if Listed(b, t, i) {
      CountIsPositive(b, world, t, i);
      assert Total(c, i.status) == TrueCount(b, world, t, i.status);
    }
  }

  lemma UnloadedTotalsIff(b: Backend, world: World, key: Key, c: ListCache, ed: Edit)
    requires Informed(world, ed) && Accurate(b, world, ListContractFromKey(key), c)
    requires FindIssueLocation(c, ed.id).None? && !BoardStep(key, c, ed).stale
    ensures
      var t := ListContractFromKey(key);
      TotalsExact(b, Edited(world, ed), t, BoardStep(key, c, ed).next) <==>
      WindowHarmless(b, t, c, world[ed.id], Merge(world[ed.id], ed.patch))
  {
    var t := ListContractFromKey(key);
    var i, j := world[ed.id], Merge(world[ed.id], ed.patch);
    var next := UnloadedStep(t, c, ed).next;
    AnswersAbout(b, t, i, j, ed);
    if ed.base.Some? {
      UnloadedStepShifts(t, c, ed, i);
    }
    UnloadedExactIff(b, world, t, c, next, ed);
    CountBalance(b, world, t, c, ed, i.status);
  }

  /** When doing nothing, or counting one out, gives the true totals. */
  lemma UnloadedExactIff(b: Backend, world: World, t: Contract, c: ListCache, next: ListCache, ed: Edit)
    requires Informed(world, ed) && Accurate(b, world, t, c)
    requires next == c || next == DecrementBucketTotal(c, world[ed.id].status)
    ensures
      var i, j := world[ed.id], Merge(world[ed.id], ed.patch);
      TotalsExact(b, Edited(world, ed), t, next) <==>
      if next == c || Total(c, i.status) == 0 then
        Listed(b, t, i) == Listed(b, t, j) && (Listed(b, t, i) ==> i.status == j.status)
      else Listed(b, t, i) && !Listed(b, t, j)
  {
    var i, j := world[ed.id], Merge(world[ed.id], ed.patch);
    forall s: Status {
      CountBalance(b, world, t, c, ed, s);
    }
    CountBalance(b, world, t, c, ed, i.status);
    CountBalance(b, world, t, c, ed, j.status);
  }

  lemma BoardTotalsIff(b: Backend, world: World, key: Key, c: ListCache, ed: Edit)
    requires Informed(world, ed) && Accurate(b, world, ListContractFromKey(key), c)
    requires !BoardStep(key, c, ed).stale
    ensures
      var t := ListContractFromKey(key);
      TotalsExact(b, Edited(world, ed), t, BoardStep(key, c, ed).next) <==>
      WindowHarmless(b, t, c, world[ed.id], Merge(world[ed.id], ed.patch))
  {
    if FindIssueLocation(c, ed.id).Some? {
      LoadedTotalsIff(b, world, key, c, ed);
    } else {
      UnloadedTotalsIff(b, world, key, c, ed);
    }
  }

  // What every step gives, reported or not ---------------------------------------------

  /** The client can tell that the issue it does not have loaded changes its column. */
  predicate SeenMoving(t: Contract, ed: Edit, i: Issue) {
    var j := Merge(i, ed.patch);
    ed.base.Some? && Guess(t, i) == Yes && Guess(t, j) == Yes && i.status != j.status
  }

  /** The client can tell that it leaves the list. */
  predicate SeenLeaving(t: Contract, ed: Edit, i: Issue) {
    ed.base.Some? && Guess(t, i) == Yes && Guess(t, Merge(i, ed.patch)) == No
  }

  /** The next list of an unloaded issue: a unit of total moves where it is seen moving,
      one is dropped where it is seen leaving, and nothing changes otherwise. */
  lemma UnloadedStepMoves(b: Backend, world: World, t: Contract, c: ListCache, ed: Edit)
    requires Informed(world, ed)
    ensures
      var i := world[ed.id];
      var j, next := Merge(i, ed.patch), UnloadedStep(t, c, ed).next;
      if SeenMoving(t, ed, i) then next == MoveBucketTotal(c, i.status, j.status)
      else if SeenLeaving(t, ed, i) then next == DecrementBucketTotal(c, i.status)
      else next == c
    ensures UnloadedStep(t, c, ed).wrote <==> SeenMoving(t, ed, world[ed.id]) || SeenLeaving(t, ed, world[ed.id])
  {
    var i, j := world[ed.id], Merge(world[ed.id], ed.patch);
    AnswersAbout(b, t, i, j, ed);
    if ed.base.Some? {
      SameDimsSameGuess(t, ed.base.value, i, ed.patch);
    }
  }

  /** A board is rewritten, and so saved for the rollback, exactly if it shows the issue,
      or the client sees it move or leave there. */
  lemma BoardWrittenIff(b: Backend, world: World, key: Key, c: ListCache, ed: Edit)
    requires Informed(world, ed)
    ensures
      var t, i := ListContractFromKey(key), world[ed.id];
      BoardStep(key, c, ed).wrote <==>
      FindIssueLocation(c, ed.id).Some? || SeenMoving(t, ed, i) || SeenLeaving(t, ed, i)
  {
    UnloadedStepMoves(b, world, ListContractFromKey(key), c, ed);
  }

  lemma MovedExactIff(b: Backend, world: World, t: Contract, c: ListCache, ed: Edit)
    requires Informed(world, ed) && Accurate(b, world, t, c)
    requires world[ed.id].status != Merge(world[ed.id], ed.patch).status
    ensures
      var i, j := world[ed.id], Merge(world[ed.id], ed.patch);
      TotalsExact(b, Edited(world, ed), t, MoveBucketTotal(c, i.status, j.status)) <==>
      Listed(b, t, j) && (Listed(b, t, i) || Total(c, i.status) == 0)
  {
    var i, j := world[ed.id], Merge(world[ed.id], ed.patch);
    forall s: Status {
      CountBalance(b, world, t, c, ed, s);
    }
    CountBalance(b, world, t, c, ed, i.status);
    CountBalance(b, world, t, c, ed, j.status);
  }

  lemma UnloadedOutcomeIff(b: Backend, world: World, key: Key, c: ListCache, ed: Edit)
    requires Informed(world, ed) && Accurate(b, world, ListContractFromKey(key), c)
    requires FindIssueLocation(c, ed.id).None?
    ensures
      var t := ListContractFromKey(key);
      var i, j := world[ed.id], Merge(world[ed.id], ed.patch);
      TotalsExact(b, Edited(world, ed), t, BoardStep(key, c, ed).next) <==>
        if SeenMoving(t, ed, i) then Listed(b, t, j) && (Listed(b, t, i) || Total(c, i.status) == 0)
        else if SeenLeaving(t, ed, i) then Listed(b, t, i) || Total(c, i.status) == 0
        else Listed(b, t, i) == Listed(b, t, j) && (Listed(b, t, i) ==> i.status == j.status)
  {
    var t := ListContractFromKey(key);
    var i, j := world[ed.id], Merge(world[ed.id], ed.patch);
    UnloadedStepMoves(b, world, t, c, ed);
    AnswersAbout(b, t, i, j, ed);
    if SeenMoving(t, ed, i) {
      MovedExactIff(b, world, t, c, ed);
    } else {
      UnloadedExactIff(b, world, t, c, UnloadedStep(t, c, ed).next, ed);
      CountBalance(b, world, t, c, ed, i.status);
    }
  }

  /** From true totals, any board, reported stale or not, has the true totals after the
      step exactly when: it shows the issue, and drops it just where the list does not
      show it any more; or it does not, and the unit it moves, drops or leaves is that of
      an issue that is listed accordingly. */
  lemma BoardOutcomeIff(b: Backend, world: World, key: Key, c: ListCache, ed: Edit)
    requires Informed(world, ed) && Accurate(b, world, ListContractFromKey(key), c)
    ensures
      var t := ListContractFromKey(key);
      var i, j := world[ed.id], Merge(world[ed.id], ed.patch);
      TotalsExact(b, Edited(world, ed), t, BoardStep(key, c, ed).next) <==>
        if FindIssueLocation(c, ed.id).Some? then
          (ListFilterDependsOn(t.scope, t.filter, ed.changed) && Guess(t, j) == No) == !Listed(b, t, j)
        else if SeenMoving(t, ed, i) then Listed(b, t, j) && (Listed(b, t, i) || Total(c, i.status) == 0)
        else if SeenLeaving(t, ed, i) then Listed(b, t, i) || Total(c, i.status) == 0
        else Listed(b, t, i) == Listed(b, t, j) && (Listed(b, t, i) ==> i.status == j.status)
  {
    if FindIssueLocation(c, ed.id).Some? {
      LoadedExactIff(b, world, ListContractFromKey(key), c, ed);
    } else {
      UnloadedOutcomeIff(b, world, key, c, ed);
    }
  }

  /** The order of the list depends on the update time, and the edit moves that. */
  predicate Resorted(t: Contract, ed: Edit, seen: Option<Issue>) {
    && t.sort.sortBy == Some(ByUpdatedAt)
    && if seen.Some? then Merge(seen.value, ed.patch) != seen.value else ed.patch != EMPTY_PATCH
  }

  /** The client cannot tell from what it has where the issue is to be shown: it does
      not know the issue or an answer, or the issue enters a column it may have to be
      loaded in. */
  predicate Unclear(t: Contract, ed: Edit, i: Issue) {
    var j := Merge(i, ed.patch);
    || ed.base.None? || Guess(t, i) == Unknown || Guess(t, j) == Unknown
    || (Guess(t, j) == Yes && (Guess(t, i) == No || i.status != j.status))
  }

  lemma LoadedStaleIff(t: Contract, c: ListCache, i: Issue, ed: Edit)
    ensures
      LoadedStep(t, c, i, ed).stale <==>
      Resorted(t, ed, Some(i))
      || (ListFilterDependsOn(t.scope, t.filter, ed.changed) && Guess(t, Merge(i, ed.patch)) == Unknown)
  {
  }

  lemma UnloadedStaleIff(t: Contract, c: ListCache, i: Issue, ed: Edit)
    requires ed.base.Some? ==> SameDims(ed.base.value, i)
    requires !ed.changed.status ==> ed.patch.status.GetOr(i.status) == i.status
    ensures
      UnloadedStep(t, c, ed).stale <==>
      || Resorted(t, ed, ed.base)
      || ((ListFilterDependsOn(t.scope, t.filter, ed.changed) || ed.changed.status) && Unclear(t, ed, i))
  {
    if ed.base.Some? {
      SameDimsSameGuess(t, ed.base.value, i, ed.patch);
    }
  }

  /** No more is reported than has to be: a board that shows the issue exactly if its
      order may change or the answer about the changed filter is open, any other exactly
      if its order may change or a change of filter or status leaves it unclear. */
  lemma BoardStaleIff(world: World, key: Key, c: ListCache, ed: Edit)
    requires Informed(world, ed)
    requires
      var found := FindIssueLocation(c, ed.id);
      found.Some? ==> found.value.issue == world[ed.id]
    ensures
      var t, i := ListContractFromKey(key), world[ed.id];
      var touched := ListFilterDependsOn(t.scope, t.filter, ed.changed);
      BoardStep(key, c, ed).stale <==>
        if FindIssueLocation(c, ed.id).Some? then
          Resorted(t, ed, Some(i)) || (touched && Guess(t, Merge(i, ed.patch)) == Unknown)
        else
          Resorted(t, ed, ed.base) || ((touched || ed.changed.status) && Unclear(t, ed, i))
  {
    LoadedStaleIff(ListContractFromKey(key), c, world[ed.id], ed);
    UnloadedStaleIff(ListContractFromKey(key), c, world[ed.id], ed);
  }

  // Shape and copies ---------------------------------------------------------------------

  /** Moving or dropping a unit of total leaves the loaded issues alone. */
  lemma TotalsOnlyStep(t: Contract, c: ListCache, ed: Edit, s: Status)
    ensures GetBucket(UnloadedStep(t, c, ed).next, s).issues == GetBucket(c, s).issues
  {
  }

  lemma BoardStepKeepsShape(key: Key, c: ListCache, ed: Edit)
    requires Shaped(c) && ed.patch.id.GetOr(ed.id) == ed.id
    ensures Shaped(BoardStep(key, c, ed).next)
    ensures FindIssueLocation(c, ed.id).None? ==>
      forall i :: Loaded(BoardStep(key, c, ed).next, i) <==> Loaded(c, i)
  {
    var t := ListContractFromKey(key);
    if FindIssueLocation(c, ed.id).Some? {
      LoadedStepShifts(t, c, ed);
    } else {
      var next := BoardStep(key, c, ed).next;
      forall s: Status
        ensures BucketOk(s, GetBucket(next, s)) && GetBucket(next, s).issues == GetBucket(c, s).issues
      {
        TotalsOnlyStep(t, c, ed, s);
        assert BucketOk(s, GetBucket(c, s));
      }
    }
  }

  lemma LoadedStepKeepsCopies(b: Backend, world: World, t: Contract, c: ListCache, ed: Edit)
    requires Informed(world, ed) && Accurate(b, world, t, c) && FindIssueLocation(c, ed.id).Some?
    requires !LoadedStep(t, c, FindIssueLocation(c, ed.id).value.issue, ed).stale
    requires !Hidden(b, t, Merge(world[ed.id], ed.patch))
    ensures FindIssueLocation(c, ed.id).value.issue == world[ed.id]
    ensures CopiesTrue(b, Edited(world, ed), t, LoadedStep(t, c, world[ed.id], ed).next)
  {
    var i, j := world[ed.id], Merge(world[ed.id], ed.patch);
    FoundBucket(c, ed.id);
    assert FindIssueLocation(c, ed.id).value.issue == i;
    AnswersAbout(b, t, i, j, ed);
    LoadedStepShifts(t, c, ed);
    var next := LoadedStep(t, c, i, ed).next;
    forall x | Loaded(next, x)
      ensures x.id in world && Edited(world, ed)[x.id] == x && Listed(b, t, x)
    {
      LoadedIsFound(next, x);
      LoadedIsFound(c, x);
    }
  }

  lemma StepKeepsCopies(b: Backend, world: World, key: Key, c: ListCache, ed: Edit)
    requires Informed(world, ed) && Accurate(b, world, ListContractFromKey(key), c)
    requires !BoardStep(key, c, ed).stale
    requires Hidden(b, ListContractFromKey(key), world[ed.id])
          == Hidden(b, ListContractFromKey(key), Merge(world[ed.id], ed.patch))
    ensures CopiesTrue(b, Edited(world, ed), ListContractFromKey(key), BoardStep(key, c, ed).next)
  {
    var t := ListContractFromKey(key);
    if FindIssueLocation(c, ed.id).Some? {
      FoundBucket(c, ed.id);
      assert Listed(b, t, world[ed.id]);
      LoadedStepKeepsCopies(b, world, t, c, ed);
    } else {
      Found(c, ed.id);
      BoardStepKeepsShape(key, c, ed);
    }
  }

  /** The invariant step: an accurate list stays accurate or is reported stale,
      unless the edit takes the issue into or out of hiding. */
  lemma BoardStaysAccurate(b: Backend, world: World, key: Key, c: ListCache, ed: Edit)
    requires Informed(world, ed) && Accurate(b, world, ListContractFromKey(key), c)
    requires Hidden(b, ListContractFromKey(key), world[ed.id])
          == Hidden(b, ListContractFromKey(key), Merge(world[ed.id], ed.patch))
    ensures BoardStep(key, c, ed).stale
         || Accurate(b, Edited(world, ed), ListContractFromKey(key), BoardStep(key, c, ed).next)
  {
    if !BoardStep(key, c, ed).stale {
      BoardTotalsIff(b, world, key, c, ed);
      StepKeepsCopies(b, world, key, c, ed);
      BoardStepKeepsShape(key, c, ed);
    }
  }

  // Where it fails -----------------------------------------------------------------------

  /** Any hidden issue that leaves the filter of a list is counted out of it. */
  lemma HiddenLeaverMiscounts(b: Backend, world: World, key: Key, c: ListCache, ed: Edit)
    requires Informed(world, ed) && Accurate(b, world, ListContractFromKey(key), c)
    requires ed.base.Some? && FindIssueLocation(c, ed.id).None?
    requires
      var t := ListContractFromKey(key);
      && ListFilterDependsOn(t.scope, t.filter, ed.changed) && t.sort.sortBy != Some(ByUpdatedAt)
      && Guess(t, world[ed.id]) == Yes && Guess(t, Merge(world[ed.id], ed.patch)) == No
      && Hidden(b, t, world[ed.id]) && Total(c, world[ed.id].status) > 0
    ensures !BoardStep(key, c, ed).stale
    ensures !TotalsExact(b, Edited(world, ed), ListContractFromKey(key), BoardStep(key, c, ed).next)
  {
    AnswersAbout(b, ListContractFromKey(key), world[ed.id], Merge(world[ed.id], ed.patch), ed);
    SameDimsSameGuess(ListContractFromKey(key), ed.base.value, world[ed.id], ed.patch);
    BoardTotalsIff(b, world, key, c, ed);
  }

  /** An edit under dimensions that deny every change: the board is reported only for
      its order, and its totals stay true exactly when the issue is listed as before. */
  lemma UnflaggedTotalsIff(b: Backend, world: World, key: Key, c: ListCache, ed: Edit)
    requires ed.id in world && ed.patch.id.GetOr(ed.id) == ed.id && ed.changed == ChangedDims(false, false, false)
    requires Accurate(b, world, ListContractFromKey(key), c)
    requires Merge(world[ed.id], ed.patch).status == world[ed.id].status
    requires Keyed(world)
    ensures
      var t := ListContractFromKey(key);
      && (BoardStep(key, c, ed).stale ==> t.sort.sortBy == Some(ByUpdatedAt))
      && (TotalsExact(b, Edited(world, ed), t, BoardStep(key, c, ed).next)
          <==> Listed(b, t, world[ed.id]) == Listed(b, t, Merge(world[ed.id], ed.patch)))
  {
    var t := ListContractFromKey(key);
    var i, j := world[ed.id], Merge(world[ed.id], ed.patch);
    forall s: Status
      ensures Total(BoardStep(key, c, ed).next, s) == TrueCount(b, world, t, s)
      ensures TrueCount(b, Edited(world, ed), t, s) ==
        TrueCount(b, world, t, s) - One(i.status == s && Listed(b, t, i)) + One(j.status == s && Listed(b, t, j))
    {
      UnflaggedKeepsTotal(b, world, key, c, ed, s);
      CountAfter(b, world, t, ed.id, j, s);
    }
    assert Total(BoardStep(key, c, ed).next, i.status) == TrueCount(b, world, t, i.status);
  }

  lemma UnflaggedKeepsTotal(b: Backend, world: World, key: Key, c: ListCache, ed: Edit, s: Status)
    requires ed.id in world && ed.patch.id.GetOr(ed.id) == ed.id && ed.changed == ChangedDims(false, false, false)
    requires Accurate(b, world, ListContractFromKey(key), c)
    requires Merge(world[ed.id], ed.patch).status == world[ed.id].status
    requires Keyed(world)
    ensures Total(BoardStep(key, c, ed).next, s) == TrueCount(b, world, ListContractFromKey(key), s)
  {
    assert Total(c, s) == TrueCount(b, world, ListContractFromKey(key), s);
    if FindIssueLocation(c, ed.id).Some? {
      FoundBucket(c, ed.id);
      CountIsPositive(b, world, ListContractFromKey(key), world[ed.id]);
      assert Total(c, world[ed.id].status) == TrueCount(b, world, ListContractFromKey(key), world[ed.id].status);
      UnflaggedPatch(ListContractFromKey(key), c, ed, s);
    }
  }

  lemma UnflaggedPatch(t: Contract, c: ListCache, ed: Edit, s: Status)
    requires Shaped(c) && FindIssueLocation(c, ed.id).Some? && ed.patch.id.GetOr(ed.id) == ed.id
    requires ed.changed == ChangedDims(false, false, false)
    requires
      var copy := FindIssueLocation(c, ed.id).value.issue;
      Merge(copy, ed.patch).status == copy.status && Total(c, copy.status) > 0
    ensures Total(LoadedStep(t, c, FindIssueLocation(c, ed.id).value.issue, ed).next, s) == Total(c, s)
  {
    PatchMovesTotal(c, ed.id, ed.patch);
  }

  /** "Assigned to me, created since 500": an older issue of mine is reassigned. */
  const TASK: Issue := Issue("older", "", None, Todo, NoPriority, Some(Member), Some("me"), "me", None, None, 0.0,
                             None, None, PropertyBag(0, map[]), [], 400, 400)
  const MINE_SINCE_500: Key :=
    MyBoardKey("assigned", NO_FILTER.(assigneeId := Some("me")),
               SortParam(Some(ByPosition), false, Some(CreatedAtField), Some("500"), None, map[]))
  const TWO_TASKS: World := map["older" := TASK, "newer" := TASK.(id := "newer", createdAt := 600)]
  const ONE_COUNTED: ListCache := map[Todo := Bucket([], 1)]
  const TO_BOB: PartialIssue := EMPTY_PATCH.(assigneeId := Some(Some("bob")))
  const REASSIGNED: Edit := Edit("older", TO_BOB, IssueChangedDims(TO_BOB, Some(TASK)), Some(TASK))

  function Since500(): Backend {
    Backend(Server((_, _) => false, _ => false), (s: SortParam, i: Issue) => s.dateField.None? || i.createdAt >= 500)
  }

  lemma ExampleIsInformed()
    ensures Informed(TWO_TASKS, REASSIGNED)
  {
  }

  lemma ExampleCounts(s: Status)
    ensures
      var t := ListContractFromKey(MINE_SINCE_500);
      ListedIds(Since500(), TWO_TASKS, t, s) == if s == Todo then {"newer"} else {}
  {
  }

  lemma ExampleShape()
    ensures Shaped(ONE_COUNTED) && forall i :: !Loaded(ONE_COUNTED, i)
  {
  }

  lemma ExampleIsAccurate()
    ensures Informed(TWO_TASKS, REASSIGNED)
    ensures Accurate(Since500(), TWO_TASKS, ListContractFromKey(MINE_SINCE_500), ONE_COUNTED)
  {
    ExampleIsInformed();
    ExampleShape();
    forall s: Status
      ensures Total(ONE_COUNTED, s) == TrueCount(Since500(), TWO_TASKS, ListContractFromKey(MINE_SINCE_500), s)
    {
      ExampleCounts(s);
    }
  }

  lemma ExampleAnswers()
    ensures
      var t := ListContractFromKey(MINE_SINCE_500);
      && ListFilterDependsOn(t.scope, t.filter, REASSIGNED.changed) && t.sort.sortBy == Some(ByPosition)
      && Guess(t, TASK) == Yes && Guess(t, Merge(TASK, TO_BOB)) == No
      && Hidden(Since500(), t, TASK) && Total(ONE_COUNTED, Todo) == 1
  {
  }

  /** The older issue was never counted there, yet the count drops, and the list is
      not reported stale. */
  lemma HiddenIssueIsCountedOut()
    ensures !BoardStep(MINE_SINCE_500, ONE_COUNTED, REASSIGNED).stale
    ensures !TotalsExact(Since500(), Edited(TWO_TASKS, REASSIGNED), ListContractFromKey(MINE_SINCE_500),
                         BoardStep(MINE_SINCE_500, ONE_COUNTED, REASSIGNED).next)
  {
    ExampleAnswers();
    ExampleIsAccurate();
    Found(ONE_COUNTED, "older");
    HiddenLeaverMiscounts(Since500(), TWO_TASKS, MINE_SINCE_500, ONE_COUNTED, REASSIGNED);
  }
}
