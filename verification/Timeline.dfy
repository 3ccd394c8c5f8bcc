/** Timeline rows of the mobile list (apps/mobile/lib/timeline-thread.ts): replies
    are gathered under their top-level entry by a search that keeps no visited set. */
module Timeline {
  import opened IssueTypes
  import opened QueryCache
  import opened Threads
  import opened Selection

  datatype TimelineRow = TimelineRow(entry: TimelineEntry, replies: seq<TimelineEntry>)

  ghost predicate UniqueEntries(entries: seq<TimelineEntry>) {
    forall j, k :: 0 <= j < k < |entries| ==> entries[j].id != entries[k].id
  }

  function CommentIds(entries: seq<TimelineEntry>): set<string> {
    set e | e in entries && e.isComment :: e.id
  }

  predicate IsReply(e: TimelineEntry, commentIds: set<string>) {
    e.isComment && HasParent(e) && e.parentId.value in commentIds
  }

  function TopLevel(entries: seq<TimelineEntry>, commentIds: set<string>): (r: seq<TimelineEntry>)
    ensures forall e :: e in r <==> e in entries && !IsReply(e, commentIds)
    ensures UniqueEntries(entries) ==> UniqueEntries(r)
  {
    if entries == [] then []
    else
      var rest := TopLevel(entries[1..], commentIds);
      assert UniqueEntries(entries) ==>
        UniqueEntries(entries[1..]) && forall e <- entries[1..] :: e.id != entries[0].id;
      if IsReply(entries[0], commentIds) then rest else [entries[0]] + rest
  }

  /** childrenByParent.get(p), in the order of the entries. */
  function Kids(entries: seq<TimelineEntry>, commentIds: set<string>, p: string): (r: seq<TimelineEntry>)
    ensures forall e :: e in r <==> e in entries && IsReply(e, commentIds) && e.parentId.value == p
    ensures UniqueEntries(entries) ==> UniqueEntries(r)
  {
    if entries == [] then []
    else
      var rest := Kids(entries[1..], commentIds, p);
      assert UniqueEntries(entries) ==>
        UniqueEntries(entries[1..]) && forall e <- entries[1..] :: e.id != entries[0].id;
      if IsReply(entries[0], commentIds) && entries[0].parentId.value == p then [entries[0]] + rest else rest
  }

  function IsTopLevel(commentIds: set<string>): TimelineEntry -> bool {
    (e: TimelineEntry) => !IsReply(e, commentIds)
  }

  function RepliesTo(commentIds: set<string>, p: string): TimelineEntry -> bool {
    (e: TimelineEntry) => IsReply(e, commentIds) && e.parentId.value == p
  }

  lemma {:induction false} TopLevelInOrder(entries: seq<TimelineEntry>, commentIds: set<string>)
    ensures Selected(entries, IsTopLevel(commentIds), TopLevel(entries, commentIds))
  {
    if entries == [] {
      NothingSelected(entries, IsTopLevel(commentIds));
    } else {
      TopLevelInOrder(entries[1..], commentIds);
      SelectedHead(entries, IsTopLevel(commentIds), TopLevel(entries[1..], commentIds));
    }
  }

  lemma {:induction false} KidsInOrder(entries: seq<TimelineEntry>, commentIds: set<string>, p: string)
    ensures Selected(entries, RepliesTo(commentIds, p), Kids(entries, commentIds, p))
  {
    if entries == [] {
      NothingSelected(entries, RepliesTo(commentIds, p));
    } else {
      KidsInOrder(entries[1..], commentIds, p);
      SelectedHead(entries, RepliesTo(commentIds, p), Kids(entries[1..], commentIds, p));
    }
  }

  /** The replies to each of the given ids in turn. */
  function KidsOfAll(entries: seq<TimelineEntry>, commentIds: set<string>, ids: seq<string>): seq<TimelineEntry> {
    if ids == [] then []
    else KidsOfAll(entries, commentIds, ids[..|ids| - 1]) + Kids(entries, commentIds, ids[|ids| - 1])
  }

  function IdSeq(entries: seq<TimelineEntry>): (r: seq<string>)
    ensures |r| == |entries|
  {
    seq(|entries|, k requires 0 <= k < |entries| => entries[k].id)
  }

  lemma SameIdSameEntry(entries: seq<TimelineEntry>, e: TimelineEntry, f: TimelineEntry)
    requires UniqueEntries(entries) && e in entries && f in entries && e.id == f.id
    ensures e == f
  {
    var j :| 0 <= j < |entries| && entries[j] == e;
    var k :| 0 <= k < |entries| && entries[k] == f;
  }

  lemma OtherEntryOtherId(entries: seq<TimelineEntry>, e: TimelineEntry, f: TimelineEntry)
    requires UniqueEntries(entries) && e in entries && f in entries && e != f
    ensures e.id != f.id
  {
    var j :| 0 <= j < |entries| && entries[j] == e;
    var k :| 0 <= k < |entries| && entries[k] == f;
    assert j != k;
  }

  // The search ------------------------------------------------------------------------

  /** The parent of the k-th gathered reply is the root or one gathered before it. */
  ghost predicate ParentMet(met: seq<string>, e: TimelineEntry, k: nat) {
    HasParent(e) && exists m: nat :: m <= k && m < |met| && met[m] == e.parentId.value
  }

  /** The ids met so far are the root and the gathered replies; the first of them
      are visited, the rest wait in the queue. */
  ghost predicate Searching(
      entries: seq<TimelineEntry>, root: TimelineEntry, out: seq<TimelineEntry>,
      visited: seq<string>, queue: seq<string>)
  {
    var commentIds := CommentIds(entries);
    && visited + queue == [root.id] + IdSeq(out)
    && Distinct([root.id] + IdSeq(out))
    && (forall e <- out :: e in entries && IsReply(e, commentIds))
    && (forall k :: 0 <= k < |out| ==> ParentMet(visited, out[k], k))
    && (forall v <- visited :: forall e <- Kids(entries, commentIds, v) :: e in out)
  }

  /** A reply to an id that was not visited yet was not met yet. */
  lemma KidsAreNew(
      entries: seq<TimelineEntry>, root: TimelineEntry, out: seq<TimelineEntry>,
      visited: seq<string>, queue: seq<string>,
      kid: TimelineEntry)
    requires UniqueEntries(entries) && root in entries && !IsReply(root, CommentIds(entries))
    requires Searching(entries, root, out, visited, queue)
    requires kid in entries && IsReply(kid, CommentIds(entries)) && kid.parentId.value !in visited
    ensures kid.id != root.id && forall m :: 0 <= m < |out| ==> out[m].id != kid.id
  {
    OtherEntryOtherId(entries, root, kid);
    forall m | 0 <= m < |out|
      ensures out[m].id != kid.id
    {
      assert out[m] in out && ParentMet(visited, out[m], m);
      OtherEntryOtherId(entries, out[m], kid);
    }
  }

  lemma ParentsStayMet(out: seq<TimelineEntry>, kids: seq<TimelineEntry>, visited: seq<string>, pid: string)
    requires forall k :: 0 <= k < |out| ==> ParentMet(visited, out[k], k)
    requires |visited| <= |out|
    requires forall e <- kids :: HasParent(e) && e.parentId.value == pid
    ensures forall k :: 0 <= k < |out + kids| ==> ParentMet(visited + [pid], (out + kids)[k], k)
  {
    forall k | 0 <= k < |out + kids|
      ensures ParentMet(visited + [pid], (out + kids)[k], k)
    {
      if k < |out| {
        assert ParentMet(visited, out[k], k);
        var m: nat :| m <= k && m < |visited| && visited[m] == out[k].parentId.value;
        assert (visited + [pid])[m] == visited[m];
      } else {
        assert kids[k - |out|] in kids && (visited + [pid])[|visited|] == pid;
      }
    }
  }

  lemma DistinctJoin(a: seq<string>, b: seq<string>)
    requires Distinct(a) && Distinct(b) && forall j, k :: 0 <= j < |a| && 0 <= k < |b| ==> a[j] != b[k]
    ensures Distinct(a + b)
  {
  }

  lemma KidIdsAreNew(
      entries: seq<TimelineEntry>, root: TimelineEntry, out: seq<TimelineEntry>,
      visited: seq<string>, queue: seq<string>,
      pid: string)
    requires UniqueEntries(entries) && root in entries && !IsReply(root, CommentIds(entries))
    requires Searching(entries, root, out, visited, queue) && pid !in visited
    ensures Distinct([root.id] + IdSeq(out + Kids(entries, CommentIds(entries), pid)))
  {
    var kids := Kids(entries, CommentIds(entries), pid);
    var met := [root.id] + IdSeq(out);
    forall j, k | 0 <= j < |met| && 0 <= k < |kids|
      ensures met[j] != IdSeq(kids)[k]
    {
      assert kids[k] in kids;
      KidsAreNew(entries, root, out, visited, queue, kids[k]);
    }
    DistinctJoin(met, IdSeq(kids));
    assert [root.id] + IdSeq(out + kids) == met + IdSeq(kids);
  }

  /** Visiting the next id meets only ids that were not met before. */
  lemma MetStep(
      root: TimelineEntry, out: seq<TimelineEntry>, kids: seq<TimelineEntry>, visited: seq<string>, queue: seq<string>)
    requires queue != [] && visited + queue == [root.id] + IdSeq(out)
    ensures visited + [queue[0]] + (queue[1..] + IdSeq(kids)) == [root.id] + IdSeq(out + kids)
  {
    calc {
      visited + [queue[0]] + (queue[1..] + IdSeq(kids));
      { assert queue == [queue[0]] + queue[1..]; }
      visited + queue + IdSeq(kids);
      [root.id] + IdSeq(out) + IdSeq(kids);
      { assert IdSeq(out + kids) == IdSeq(out) + IdSeq(kids); }
      [root.id] + IdSeq(out + kids);
    }
  }

  lemma SearchStep(
      entries: seq<TimelineEntry>, root: TimelineEntry, out: seq<TimelineEntry>,
      visited: seq<string>, queue: seq<string>)
    requires UniqueEntries(entries) && root in entries && !IsReply(root, CommentIds(entries))
    requires Searching(entries, root, out, visited, queue) && queue != []
    ensures
      var kids := Kids(entries, CommentIds(entries), queue[0]);
      Searching(entries, root, out + kids, visited + [queue[0]], queue[1..] + IdSeq(kids))
  {
    var kids := Kids(entries, CommentIds(entries), queue[0]);
    NextIsNew(entries, root, out, visited, queue);
    KidIdsAreNew(entries, root, out, visited, queue, queue[0]);
    ParentsStayMet(out, kids, visited, queue[0]);
    MetStep(root, out, kids, visited, queue);
  }

  ghost function Unvisited(entries: seq<TimelineEntry>, visited: seq<string>): set<string> {
    set id | id in EntryIds(entries) && id !in visited
  }

  lemma OneVisitLess(entries: seq<TimelineEntry>, visited: seq<string>, id: string)
    requires id in EntryIds(entries) && id !in visited
    ensures Unvisited(entries, visited + [id]) < Unvisited(entries, visited)
  {
    assert id in Unvisited(entries, visited) && id in visited + [id];
  }

  /** collectDescendants: it ends although it keeps no visited set, because nothing
      below a top-level entry is met twice. */
  method CollectDescendants(entries: seq<TimelineEntry>, root: TimelineEntry) returns (out: seq<TimelineEntry>)
    requires UniqueEntries(entries) && root in entries && !IsReply(root, CommentIds(entries))
    ensures UniqueEntries(out)
    ensures forall e :: e in out <==> e in entries && Below(entries, e, root)
    ensures forall k :: 0 <= k < |out| ==> ParentMet([root.id] + IdSeq(out), out[k], k)
    ensures out == KidsOfAll(entries, CommentIds(entries), [root.id] + IdSeq(out))
  {
    var commentIds := CommentIds(entries);
    var queue := [root.id];
    ghost var visited: seq<string> := [];
    out := [];
    while queue != []
      invariant Searching(entries, root, out, visited, queue)
      invariant out == KidsOfAll(entries, commentIds, visited)
      decreases Unvisited(entries, visited)
    {
      SearchStep(entries, root, out, visited, queue);
      NextIsNew(entries, root, out, visited, queue);
      OneVisitLess(entries, visited, queue[0]);
      var pid := queue[0];
      var kids := Kids(entries, commentIds, pid);
      assert (visited + [pid])[..|visited|] == visited;
      out, queue, visited := out + kids, queue[1..] + IdSeq(kids), visited + [pid];
    }
    assert visited == [root.id] + IdSeq(out);
    SearchIsOver(entries, root, out, visited);
    SearchFindsBelow(entries, root, out);
  }

  lemma NextIsNew(
      entries: seq<TimelineEntry>, root: TimelineEntry, out: seq<TimelineEntry>,
      visited: seq<string>, queue: seq<string>)
    requires root in entries && Searching(entries, root, out, visited, queue) && queue != []
    ensures queue[0] in EntryIds(entries) && queue[0] !in visited
  {
    NextInQueue([root.id] + IdSeq(out), visited, queue);
    if |visited| > 0 {
      assert out[|visited| - 1] in out;
    }
  }

  lemma NextInQueue(met: seq<string>, visited: seq<string>, queue: seq<string>)
    requires visited + queue == met && Distinct(met) && queue != []
    ensures |visited| < |met| && met[|visited|] == queue[0] && queue[0] !in visited
  {
    forall k | 0 <= k < |visited|
      ensures visited[k] != queue[0]
    {
      assert met[k] == visited[k];
    }
  }

  // What the search finds --------------------------------------------------------------

  /** The reply e hangs, directly or through other replies, under the entry root. */
  ghost predicate Below(entries: seq<TimelineEntry>, e: TimelineEntry, root: TimelineEntry) {
    IsReply(e, CommentIds(entries)) && Reaches(Linked(ById(entries)), e.id, root.id)
  }

  lemma {:induction false} ByIdHolds(entries: seq<TimelineEntry>)
    requires UniqueEntries(entries)
    ensures ById(entries).Keys == CommentIds(entries)
    ensures forall e <- entries :: e.isComment ==> e.id in ById(entries) && ById(entries)[e.id] == e
  {
    if entries == [] {
    } else {
      var n := |entries| - 1;
      ByIdHolds(entries[..n]);
      assert entries == entries[..n] + [entries[n]];
    }
  }

  /** An entry has a link exactly when it is a reply, and the link is its parent. */
  ghost predicate LinksFit(entries: seq<TimelineEntry>, up: Links) {
    forall e <- entries ::
      && (e.id in up <==> IsReply(e, CommentIds(entries)))
      && (IsReply(e, CommentIds(entries)) ==> up[e.id] == e.parentId.value)
  }

  lemma UniqueLinksFit(entries: seq<TimelineEntry>)
    requires UniqueEntries(entries)
    ensures LinksFit(entries, Linked(ById(entries)))
  {
    ByIdHolds(entries);
    forall e | e in entries
      ensures e.id in ById(entries) ==> e.isComment
    {
      if e.id in ById(entries) {
        var f :| f in entries && f.isComment && f.id == e.id;
        SameIdSameEntry(entries, e, f);
      }
    }
  }

  /** The search is over: nothing more hangs under what was gathered. */
  ghost predicate Gathered(entries: seq<TimelineEntry>, root: TimelineEntry, out: seq<TimelineEntry>) {
    var met := [root.id] + IdSeq(out);
    && (forall e <- out :: e in entries && IsReply(e, CommentIds(entries)))
    && (forall k :: 0 <= k < |out| ==> ParentMet(met, out[k], k))
    && (forall e <- entries :: IsReply(e, CommentIds(entries)) && e.parentId.value in met ==> e in out)
  }

  lemma SearchIsOver(entries: seq<TimelineEntry>, root: TimelineEntry, out: seq<TimelineEntry>, visited: seq<string>)
    requires Searching(entries, root, out, visited, [])
    ensures UniqueEntries(out) && Gathered(entries, root, out)
  {
    var met := [root.id] + IdSeq(out);
    assert visited == met;
    UniqueBehind(root.id, out);
    forall e | e in entries && IsReply(e, CommentIds(entries)) && e.parentId.value in met
      ensures e in out
    {
      assert e in Kids(entries, CommentIds(entries), e.parentId.value);
    }
  }

  lemma UniqueBehind(first: string, out: seq<TimelineEntry>)
    requires Distinct([first] + IdSeq(out))
    ensures UniqueEntries(out)
  {
    var met := [first] + IdSeq(out);
    forall j, k | 0 <= j < k < |out|
      ensures out[j].id != out[k].id
    {
      assert met[j + 1] == out[j].id && met[k + 1] == out[k].id;
    }
  }

  lemma SearchFindsBelow(entries: seq<TimelineEntry>, root: TimelineEntry, out: seq<TimelineEntry>)
    requires UniqueEntries(entries) && root in entries && !IsReply(root, CommentIds(entries))
    requires Gathered(entries, root, out)
    ensures forall e :: e in out <==> e in entries && Below(entries, e, root)
  {
    var up := Linked(ById(entries));
    UniqueLinksFit(entries);
    forall e | e in entries && Below(entries, e, root)
      ensures e in out
    {
      var n: nat :| Climb(up, e.id, n) == Some(root.id);
      BelowIsGathered(entries, up, root, out, e, n);
    }
    GatheredIsChained(entries, up, root, out);
    forall k: nat | k < |out|
      ensures Reaches(up, out[k].id, root.id)
    {
      ChainReaches(up, IdSeq(out), root.id, k);
    }
  }

  lemma {:induction false} BelowIsGathered(
      entries: seq<TimelineEntry>, up: Links, root: TimelineEntry, out: seq<TimelineEntry>, e: TimelineEntry, n: nat)
    requires LinksFit(entries, up) && root in entries && !IsReply(root, CommentIds(entries))
    requires Gathered(entries, root, out)
    requires e in entries && IsReply(e, CommentIds(entries)) && Climb(up, e.id, n) == Some(root.id)
    ensures e in out
    decreases n
  {
    var p := e.parentId.value;
    var met := [root.id] + IdSeq(out);
    assert n > 0 && Climb(up, p, n - 1) == Some(root.id);
    if p == root.id {
      assert met[0] == p;
    } else {
      var f :| f in entries && f.isComment && f.id == p;
      BelowIsGathered(entries, up, root, out, f, n - 1);
      var m :| 0 <= m < |out| && out[m] == f;
      assert met[m + 1] == p;
    }
  }

  /** The link of each id leads to the root or to an earlier id. */
  ghost predicate Chained(up: Links, ids: seq<string>, root: string) {
    forall k :: 0 <= k < |ids| ==> ids[k] in up && (up[ids[k]] == root || up[ids[k]] in ids[..k])
  }

  lemma {:induction false} ChainReaches(up: Links, ids: seq<string>, root: string, k: nat)
    requires Chained(up, ids, root) && k < |ids|
    ensures Reaches(up, ids[k], root)
    decreases k
  {
    var p := up[ids[k]];
    ParentReached(up, ids[k]);
    if p != root {
      var m :| 0 <= m < k && ids[m] == p;
      ChainReaches(up, ids, root, m);
      ReachesOn(up, ids[k], p, root);
    }
  }

  lemma GatheredIsChained(entries: seq<TimelineEntry>, up: Links, root: TimelineEntry, out: seq<TimelineEntry>)
    requires LinksFit(entries, up) && Gathered(entries, root, out)
    ensures Chained(up, IdSeq(out), root.id)
  {
    var ids := IdSeq(out);
    var met := [root.id] + ids;
    forall k | 0 <= k < |out|
      ensures ids[k] in up && (up[ids[k]] == root.id || up[ids[k]] in ids[..k])
    {
      var e := out[k];
      assert e in out && ParentMet(met, e, k);
      var m: nat :| m <= k && m < |met| && met[m] == e.parentId.value;
      if m > 0 {
        assert met[m] == ids[..k][m - 1];
      }
    }
  }

  // The rows --------------------------------------------------------------------------

  /** One row: the replies are those below the entry, each after its parent: first the
      replies to the entry, then those to each reply in turn. */
  ghost predicate RowOf(entries: seq<TimelineEntry>, top: TimelineEntry, row: TimelineRow) {
    && row.entry == top
    && UniqueEntries(row.replies)
    && (forall e :: e in row.replies <==> e in entries && top.isComment && Below(entries, e, top))
    && (forall k :: 0 <= k < |row.replies| ==> ParentMet([top.id] + IdSeq(row.replies), row.replies[k], k))
    && (top.isComment ==>
          row.replies == KidsOfAll(entries, CommentIds(entries), [top.id] + IdSeq(row.replies)))
  }

  function RowEntries(rows: seq<TimelineRow>): seq<TimelineEntry> {
    seq(|rows|, k requires 0 <= k < |rows| => rows[k].entry)
  }

  method BuildRow(entries: seq<TimelineEntry>, top: TimelineEntry) returns (row: TimelineRow)
    requires UniqueEntries(entries) && top in entries && !IsReply(top, CommentIds(entries))
    ensures RowOf(entries, top, row)
  {
    var replies: seq<TimelineEntry> := [];
    if top.isComment {
      replies := CollectDescendants(entries, top);
    }
    row := TimelineRow(top, replies);
  }

  method BuildTimelineRows(entries: seq<TimelineEntry>) returns (rows: seq<TimelineRow>)
    requires UniqueEntries(entries)
    ensures
      && Selected(entries, IsTopLevel(CommentIds(entries)), RowEntries(rows))
      && forall k :: 0 <= k < |rows| ==> RowOf(entries, rows[k].entry, rows[k])
  {
    var top := TopLevel(entries, CommentIds(entries));
    rows := [];
    for n := 0 to |top|
      invariant |rows| == n
      invariant forall k :: 0 <= k < n ==> rows[k].entry == top[k] && RowOf(entries, top[k], rows[k])
    {
      assert top[n] in top;
      var row := BuildRow(entries, top[n]);
      rows := rows + [row];
    }
    assert RowEntries(rows) == top;
    TopLevelInOrder(entries, CommentIds(entries));
  }

  /** The parent links close into a cycle at x. */
  ghost predicate OnCycle(up: Links, x: string) {
    exists n: nat :: n > 0 && Climb(up, x, n) == Some(x)
  }

  /** Climbing from x ends above the links, or meets a cycle. */
  lemma {:induction false} ClimbEnds(up: Links, x: string, seen: set<string>) returns (top: string)
    requires seen <= up.Keys && forall s <- seen :: s in up && Reaches(up, s, x) && (up[s] in seen || up[s] == x)
    ensures Reaches(up, x, top) && (top !in up || OnCycle(up, top))
    decreases up.Keys - seen
  {
    ReachesSelf(up, x);
    if x !in up {
      top := x;
    } else if x in seen {
      top := x;
      ParentReached(up, x);
      ClosedUpward(up, seen, x, 1);
      assert Climb(up, x, 1) == Some(up[x]) && up[x] in seen;
      var n: nat :| Climb(up, up[x], n) == Some(x);
      assert Climb(up, x, n + 1) == Some(x);
    } else {
      ParentReached(up, x);
      forall s | s in seen + {x}
        ensures Reaches(up, s, up[x])
      {
        ReachesOn(up, s, x, up[x]);
      }
      top := ClimbEnds(up, up[x], seen + {x});
      ReachesOn(up, x, up[x], top);
    }
  }

  /** A cycle is never left. */
  lemma {:induction false} CycleIsKept(up: Links, x: string, m: nat, n: nat)
    requires m > 0 && Climb(up, x, m) == Some(x)
    ensures Climb(up, x, n).Some? && Climb(up, x, n).value in up
    decreases n
  {
    if n < m {
      ClimbPrefix(up, x, n, m);
    } else {
      CycleIsKept(up, x, m, n - m);
      ClimbOn(up, x, m, n - m);
    }
  }

  lemma {:induction false} ClimbPrefix(up: Links, x: string, n: nat, m: nat)
    requires n < m && Climb(up, x, m).Some?
    ensures Climb(up, x, n).Some? && Climb(up, x, n).value in up
    decreases n
  {
    if n == 0 {
    } else {
      ClimbPrefix(up, up[x], n - 1, m - 1);
    }
  }

  /** Entry e is a row, or a reply of a row. */
  ghost predicate Shown(entries: seq<TimelineEntry>, e: TimelineEntry) {
    || !IsReply(e, CommentIds(entries))
    || exists t <- entries :: t.isComment && !IsReply(t, CommentIds(entries)) && Below(entries, e, t)
  }

  lemma NoLinkNoAncestor(up: Links, x: string)
    requires x !in up
    ensures forall y :: Reaches(up, x, y) ==> y == x
  {
    forall y | Reaches(up, x, y)
      ensures y == x
    {
      var n: nat :| Climb(up, x, n) == Some(y);
    }
  }

  /** An entry is below at most one top-level entry. */
  lemma OneRoot(entries: seq<TimelineEntry>, e: TimelineEntry, s: TimelineEntry, t: TimelineEntry)
    requires UniqueEntries(entries) && s in entries && t in entries
    requires !IsReply(s, CommentIds(entries)) && !IsReply(t, CommentIds(entries))
    requires Below(entries, e, s) && Below(entries, e, t)
    ensures s == t
  {
    var up := Linked(ById(entries));
    UniqueLinksFit(entries);
    AncestorsInLine(up, e.id, s.id, t.id);
    NoLinkNoAncestor(up, s.id);
    NoLinkNoAncestor(up, t.id);
    SameIdSameEntry(entries, s, t);
  }

  /** The rows show exactly the entries whose chain of parents ends: all of them when
      no parent links form a cycle, and only then. */
  lemma AllShownIff(entries: seq<TimelineEntry>)
    requires UniqueEntries(entries)
    ensures (forall e <- entries :: Shown(entries, e)) <==>
            (forall e <- entries :: !OnCycle(Linked(ById(entries)), e.id))
  {
    var up := Linked(ById(entries));
    UniqueLinksFit(entries);
    ByIdHolds(entries);
    forall e | e in entries
      ensures OnCycle(up, e.id) ==> !Shown(entries, e)
    {
      if OnCycle(up, e.id) {
        OnCycleNotShown(entries, up, e);
      }
    }
    if forall e <- entries :: !OnCycle(up, e.id) {
      forall e | e in entries
        ensures Shown(entries, e)
      {
        var top := ClimbEnds(up, e.id, {});
        TopIsShown(entries, up, e, top);
      }
    }
  }

  lemma OnCycleNotShown(entries: seq<TimelineEntry>, up: Links, e: TimelineEntry)
    requires LinksFit(entries, up) && up == Linked(ById(entries)) && e in entries && OnCycle(up, e.id)
    ensures !Shown(entries, e)
  {
    var m: nat :| m > 0 && Climb(up, e.id, m) == Some(e.id);
    CycleIsKept(up, e.id, m, 0);
    forall t | t in entries && !IsReply(t, CommentIds(entries))
      ensures !Reaches(up, e.id, t.id)
    {
      if Reaches(up, e.id, t.id) {
        var n: nat :| Climb(up, e.id, n) == Some(t.id);
        CycleIsKept(up, e.id, m, n);
      }
    }
  }

  lemma TopIsShown(entries: seq<TimelineEntry>, up: Links, e: TimelineEntry, top: string)
    requires UniqueEntries(entries) && LinksFit(entries, up) && up == Linked(ById(entries))
    requires e in entries && Reaches(up, e.id, top) && (top !in up || OnCycle(up, top))
    requires forall f <- entries :: !OnCycle(up, f.id)
    ensures Shown(entries, e)
  {
    ByIdHolds(entries);
    if IsReply(e, CommentIds(entries)) {
      var n: nat :| Climb(up, e.id, n) == Some(top);
      ClosedUpward(up, ById(entries).Keys, e.id, n);
      var t :| t in entries && t.isComment && t.id == top;
      assert Below(entries, e, t);
    }
  }

  // Without unique ids ------------------------------------------------------------------

  /** The queue of the search after n visits. */
  function QueueAfter(entries: seq<TimelineEntry>, queue: seq<string>, n: nat): seq<string>
    decreases n
  {
    if n == 0 || queue == [] then queue
    else QueueAfter(entries, queue[1..] + IdSeq(Kids(entries, CommentIds(entries), queue[0])), n - 1)
  }

  const LOOSE: TimelineEntry := TimelineEntry(true, "a", None, "", None, None, None)

  /** A repeated id can answer itself: the search under it never empties its queue. */
  lemma {:induction false} RepeatedIdNeverEnds(n: nat)
    ensures QueueAfter([LOOSE, LOOSE.(parentId := Some("a"))], ["a"], n) == ["a"]
  {
    var entries := [LOOSE, LOOSE.(parentId := Some("a"))];
    if n == 0 {
    } else {
      assert CommentIds(entries) == {"a"};
      assert entries[1..] == [entries[1]] && entries[1..][1..] == [];
      var kids := Kids(entries, {"a"}, "a");
      assert kids == [entries[1]] by {
        assert Kids(entries[1..], {"a"}, "a") == [entries[1]];
      }
      assert ["a"][1..] + IdSeq(kids) == ["a"];
      RepeatedIdNeverEnds(n - 1);
    }
  }
}
