/** Comment threads over parent links that may dangle or form cycles
    (packages/core/issues/mutations.ts): what a deletion takes along, and which
    comments belong to one thread. */
module Threads {
  import opened IssueTypes
  import opened Selection

  datatype TimelineEntry = TimelineEntry(
    isComment: bool,
    id: string,
    parentId: Option<string>,
    content: string,
    resolvedAt: Option<string>,
    resolvedByType: Option<string>,
    resolvedById: Option<string>)

  /** A missing or empty parent id names no parent. */
  predicate HasParent(e: TimelineEntry) {
    e.parentId.GetOr("") != ""
  }

  // Deleting a comment -----------------------------------------------------------------

  /** Whoever replies to a member is a member. */
  ghost predicate Closed(entries: seq<TimelineEntry>, s: set<string>) {
    forall e <- entries :: HasParent(e) && e.parentId.value in s ==> e.id in s
  }

  /** The comment and all its transitive replies: the least closed set that has it. */
  ghost predicate LeastClosed(entries: seq<TimelineEntry>, id: string, s: set<string>) {
    && id in s && Closed(entries, s)
    && forall t :: id in t && Closed(entries, t) ==> s <= t
  }

  function EntryIds(entries: seq<TimelineEntry>): set<string> {
    set e | e in entries :: e.id
  }

  /** One pass over the entries. */
  method AddReplies(entries: seq<TimelineEntry>, id: string, removed: set<string>)
    returns (next: set<string>, changed: bool)
    requires id in removed && removed <= EntryIds(entries) + {id}
    requires forall t :: id in t && Closed(entries, t) ==> removed <= t
    ensures removed <= next <= EntryIds(entries) + {id}
    ensures changed <==> next != removed
    ensures !changed ==> Closed(entries, next)
    ensures forall t :: id in t && Closed(entries, t) ==> next <= t
  {
    next, changed := removed, false;
    for n := 0 to |entries|
      invariant removed <= next <= EntryIds(entries) + {id}
      invariant changed <==> next != removed
      invariant !changed ==> Closed(entries[..n], next)
      invariant forall t :: id in t && Closed(entries, t) ==> next <= t
    {
      var e := entries[n];
      assert entries[..n + 1] == entries[..n] + [e] && e in entries;
      if HasParent(e) && e.parentId.value in next && e.id !in next {
        next := next + {e.id};
        changed := true;
      }
    }
    assert entries[..|entries|] == entries;
  }

  /** The removal loop of useDeleteComment. */
  method RemovalSet(entries: seq<TimelineEntry>, id: string) returns (removed: set<string>)
    ensures LeastClosed(entries, id, removed)
  {
    removed := {id};
    var changed := true;
    while changed
      invariant id in removed && removed <= EntryIds(entries) + {id}
      invariant !changed ==> Closed(entries, removed)
      invariant forall t :: id in t && Closed(entries, t) ==> removed <= t
      decreases EntryIds(entries) + {id} - removed, changed
    {
      removed, changed := AddReplies(entries, id, removed);
    }
  }

  function Survivors(entries: seq<TimelineEntry>, removed: set<string>): (r: seq<TimelineEntry>)
    ensures forall e :: e in r <==> e in entries && e.id !in removed
  {
    if entries == [] then []
    else
      var rest := Survivors(entries[1..], removed);
      if entries[0].id in removed then rest else [entries[0]] + rest
  }

  function Survives(removed: set<string>): TimelineEntry -> bool {
    (e: TimelineEntry) => e.id !in removed
  }

  /** The survivors are the entries with another id, repeats included, in order. */
  lemma {:induction false} SurvivorsInOrder(entries: seq<TimelineEntry>, removed: set<string>)
    ensures Selected(entries, Survives(removed), Survivors(entries, removed))
  {
    if entries == [] {
      NothingSelected(entries, Survives(removed));
    } else {
      SurvivorsInOrder(entries[1..], removed);
      SelectedHead(entries, Survives(removed), Survivors(entries[1..], removed));
    }
  }

  method DeleteComment(entries: seq<TimelineEntry>, id: string) returns (r: seq<TimelineEntry>, removed: set<string>)
    ensures LeastClosed(entries, id, removed)
    ensures Selected(entries, Survives(removed), r)
    ensures forall e <- r :: e.id != id && (HasParent(e) ==> e.parentId.value !in removed)
  {
    removed := RemovalSet(entries, id);
    r := Survivors(entries, removed);
    SurvivorsInOrder(entries, removed);
  }

  // Following parents -------------------------------------------------------------------

  type Links = map<string, string>

  /** The n-th ancestor of x, if there are that many. */
  function Climb(up: Links, x: string, n: nat): Option<string>
    decreases n
  {
    if n == 0 then Some(x) else if x in up then Climb(up, up[x], n - 1) else None
  }

  ghost predicate Reaches(up: Links, x: string, y: string) {
    exists n: nat :: Climb(up, x, n) == Some(y)
  }

  lemma ReachesSelf(up: Links, x: string)
    ensures Reaches(up, x, x)
  {
    assert Climb(up, x, 0) == Some(x);
  }

  lemma {:induction false} ClimbOn(up: Links, x: string, m: nat, n: nat)
    requires Climb(up, x, m).Some?
    ensures Climb(up, x, m + n) == Climb(up, Climb(up, x, m).value, n)
    decreases m
  {
    if m == 0 {
    } else {
      ClimbOn(up, up[x], m - 1, n);
    }
  }

  lemma ReachesOn(up: Links, x: string, y: string, z: string)
    requires Reaches(up, x, y) && Reaches(up, y, z)
    ensures Reaches(up, x, z)
  {
    var m: nat :| Climb(up, x, m) == Some(y);
    var n: nat :| Climb(up, y, n) == Some(z);
    ClimbOn(up, x, m, n);
    assert Climb(up, x, m + n) == Some(z);
  }

  lemma ParentReached(up: Links, x: string)
    requires x in up
    ensures Reaches(up, x, up[x])
  {
    assert Climb(up, up[x], 0) == Some(up[x]);
    assert Climb(up, x, 1) == Some(up[x]);
  }

  /** Of two ancestors of one comment, one is an ancestor of the other. */
  lemma AncestorsInLine(up: Links, x: string, y: string, z: string)
    requires Reaches(up, x, y) && Reaches(up, x, z)
    ensures Reaches(up, y, z) || Reaches(up, z, y)
  {
    var m: nat :| Climb(up, x, m) == Some(y);
    var n: nat :| Climb(up, x, n) == Some(z);
    if m <= n {
      ClimbOn(up, x, m, n - m);
      assert Climb(up, y, n - m) == Some(z);
    } else {
      ClimbOn(up, x, n, m - n);
      assert Climb(up, z, m - n) == Some(y);
    }
  }

  /** A set closed under parents holds every ancestor of its members. */
  lemma {:induction false} ClosedUpward(up: Links, s: set<string>, x: string, n: nat)
    requires x in s && forall y <- s | y in up :: up[y] in s
    ensures Climb(up, x, n).Some? ==> Climb(up, x, n).value in s
    decreases n
  {
    if n > 0 && x in up {
      ClosedUpward(up, s, up[x], n - 1);
    }
  }

  /** Two comments are in one thread when they have an ancestor in common. */
  ghost predicate Meet(up: Links, x: string, y: string) {
    exists z :: Reaches(up, x, z) && Reaches(up, y, z)
  }

  lemma MeetSelf(up: Links, x: string)
    ensures Meet(up, x, x)
  {
    ReachesSelf(up, x);
  }

  lemma MeetOn(up: Links, x: string, y: string, w: string)
    requires Meet(up, x, y) && Meet(up, y, w)
    ensures Meet(up, x, w)
  {
    var a :| Reaches(up, x, a) && Reaches(up, y, a);
    var b :| Reaches(up, y, b) && Reaches(up, w, b);
    AncestorsInLine(up, y, a, b);
    if Reaches(up, a, b) {
      ReachesOn(up, x, a, b);
    } else {
      ReachesOn(up, w, b, a);
    }
  }

  // Collecting a thread ------------------------------------------------------------------

  /** The comments by id; a later entry with the same id replaces an earlier one. */
  function ById(entries: seq<TimelineEntry>): map<string, TimelineEntry> {
    if entries == [] then map[]
    else
      var n := |entries| - 1;
      if entries[n].isComment then ById(entries[..n])[entries[n].id := entries[n]] else ById(entries[..n])
  }

  /** Every comment that names a parent, and the parent it names. */
  function Named(byId: map<string, TimelineEntry>): Links {
    map c | c in byId && HasParent(byId[c]) :: byId[c].parentId.value
  }

  /** The links that stay among the comments. */
  function Linked(byId: map<string, TimelineEntry>): Links {
    map c | c in byId && HasParent(byId[c]) && byId[c].parentId.value in byId :: byId[c].parentId.value
  }

  /** The walk up: it stops at the top of a chain, or where a cycle closes. */
  method FindRoot(up: Links, x: string) returns (root: string)
    ensures Reaches(up, x, root)
    ensures forall z :: Reaches(up, x, z) ==> Reaches(up, z, root)
  {
    root := x;
    var guard: set<string> := {};
    ReachesSelf(up, x);
    while root in up && root !in guard
      invariant x in guard + {root} && Reaches(up, x, root)
      invariant guard <= up.Keys && forall g <- guard :: up[g] in guard + {root} && Reaches(up, g, root)
      decreases up.Keys - guard
    {
      var next := up[root];
      forall g | g in guard + {root, x}
        ensures Reaches(up, g, next)
      {
        ReachesSelf(up, root);
        ParentReached(up, root);
        ReachesOn(up, g, root, next);
      }
      guard := guard + {root};
      root := next;
    }
    forall z | Reaches(up, x, z)
      ensures Reaches(up, z, root)
    {
      var n: nat :| Climb(up, x, n) == Some(z);
      ClosedUpward(up, guard + {root}, x, n);
      ReachesSelf(up, root);
    }
  }

  function Children(up: Links, p: string): set<string> {
    set c | c in up && up[c] == p
  }

  /** The stack-driven walk down: everything that reaches the root. */
  method CollectBelow(up: Links, root: string) returns (ids: set<string>)
    ensures forall y :: y in ids <==> Reaches(up, y, root)
  {
    ids := {root};
    var stack := [root];
    ReachesSelf(up, root);
    while stack != []
      invariant root in ids && ids <= up.Keys + {root}
      invariant forall y <- stack :: y in ids
      invariant forall y <- ids :: Reaches(up, y, root)
      invariant forall y <- ids :: y in stack || Children(up, y) <= ids
      decreases up.Keys + {root} - ids, |stack|
    {
      var id := stack[|stack| - 1];
      ghost var before := ids;
      stack := stack[..|stack| - 1];
      ids, stack := PushChildren(up, root, id, ids, stack);
    }
    forall y | Reaches(up, y, root)
      ensures y in ids
    {
      var n: nat :| Climb(up, y, n) == Some(root);
      BelowIsIn(up, ids, root, y, n);
    }
  }

  method PushChildren(up: Links, root: string, id: string, ids: set<string>, stack: seq<string>)
    returns (ids': set<string>, stack': seq<string>)
    requires id in ids && ids <= up.Keys + {root} && Reaches(up, id, root)
    requires forall y <- stack :: y in ids
    requires forall y <- ids :: Reaches(up, y, root)
    requires forall y <- ids :: y == id || y in stack || Children(up, y) <= ids
    ensures ids <= ids' <= up.Keys + {root} && forall y <- stack' :: y in ids'
    ensures forall y <- ids' :: Reaches(up, y, root)
    ensures forall y <- ids' :: y in stack' || Children(up, y) <= ids'
    ensures ids' == ids ==> stack' == stack
  {
    ids', stack' := ids, stack;
    var rest := Children(up, id);
    while rest != {}
      invariant rest <= Children(up, id)
      invariant ids <= ids' <= up.Keys + {root} && forall y <- stack' :: y in ids'
      invariant forall y <- ids' :: Reaches(up, y, root)
      invariant Children(up, id) - rest <= ids'
      invariant forall y <- ids' :: y == id || y in stack' || Children(up, y) <= ids'
      invariant ids' == ids ==> stack' == stack
      decreases rest
    {
      var child :| child in rest;
      rest := rest - {child};
      if child !in ids' {
        ParentReached(up, child);
        ReachesOn(up, child, id, root);
        ids' := ids' + {child};
        stack' := stack' + [child];
      }
    }
  }

  lemma {:induction false} BelowIsIn(up: Links, ids: set<string>, root: string, y: string, n: nat)
    requires root in ids && forall x <- ids :: Children(up, x) <= ids
    requires Climb(up, y, n) == Some(root)
    ensures y in ids
    decreases n
  {
    if n == 0 {
    } else {
      BelowIsIn(up, ids, root, up[y], n - 1);
      assert y in Children(up, up[y]);
    }
  }

  /** What a thread is, without saying how it is found: the comments that share an
      ancestor with x. An id that is no comment is the head of what names it. */
  ghost predicate InThread(byId: map<string, TimelineEntry>, x: string, y: string) {
    if x in byId then y in byId && Meet(Linked(byId), x, y)
    else y == x || Reaches(Named(byId), y, x)
  }

  lemma {:induction false} LinkedClimb(byId: map<string, TimelineEntry>, x: string, n: nat)
    ensures Climb(Linked(byId), x, n).Some? ==> Climb(Named(byId), x, n) == Climb(Linked(byId), x, n)
    ensures Climb(Named(byId), x, n).Some? && Climb(Named(byId), x, n).value in byId ==>
      Climb(Linked(byId), x, n) == Climb(Named(byId), x, n) && x in byId
    decreases n
  {
    if n > 0 && x in Named(byId) {
      LinkedClimb(byId, Named(byId)[x], n - 1);
    }
  }

  /** Naming an ancestor among the comments is reaching it through comments. */
  lemma LinkedReaches(byId: map<string, TimelineEntry>, x: string, y: string)
    requires y in byId
    ensures Reaches(Linked(byId), x, y) <==> Reaches(Named(byId), x, y)
    ensures Reaches(Named(byId), x, y) ==> x in byId
  {
    if Reaches(Linked(byId), x, y) {
      var n: nat :| Climb(Linked(byId), x, n) == Some(y);
      LinkedClimb(byId, x, n);
      assert Climb(Named(byId), x, n) == Some(y);
    }
    if Reaches(Named(byId), x, y) {
      var n: nat :| Climb(Named(byId), x, n) == Some(y);
      LinkedClimb(byId, x, n);
      assert Climb(Linked(byId), x, n) == Some(y);
    }
  }

  /** collectThreadCommentIds: it stops whatever the links, and finds the thread. */
  method CollectThreadCommentIds(entries: seq<TimelineEntry>, x: string) returns (ids: set<string>)
    ensures x in ids && forall y :: y in ids <==> InThread(ById(entries), x, y)
  {
    var byId := ById(entries);
    var root := FindRoot(Linked(byId), x);
    ids := CollectBelow(Named(byId), root);
    RootFindsThread(byId, x, root);
    ThreadHasItself(byId, x);
  }

  lemma ThreadHasItself(byId: map<string, TimelineEntry>, x: string)
    ensures InThread(byId, x, x)
  {
    MeetSelf(Linked(byId), x);
  }

  lemma RootFindsThread(byId: map<string, TimelineEntry>, x: string, root: string)
    requires Reaches(Linked(byId), x, root)
    requires forall z :: Reaches(Linked(byId), x, z) ==> Reaches(Linked(byId), z, root)
    ensures forall y :: Reaches(Named(byId), y, root) <==> InThread(byId, x, y)
  {
    var up := Linked(byId);
    var n: nat :| Climb(up, x, n) == Some(root);
    if x in byId {
      ClosedUpward(up, byId.Keys, x, n);
      forall y
        ensures Reaches(Named(byId), y, root) <==> y in byId && Meet(up, x, y)
      {
        LinkedReaches(byId, y, root);
        if y in byId && Meet(up, x, y) {
          var z :| Reaches(up, x, z) && Reaches(up, y, z);
          ReachesOn(up, y, z, root);
        }
      }
    } else {
      assert n == 0 && root == x;
      ReachesSelf(Named(byId), x);
    }
  }

  /** Threads of comments are equivalence classes: any member has the same thread. */
  lemma SameThread(byId: map<string, TimelineEntry>, x: string, y: string)
    requires x in byId && InThread(byId, x, y)
    ensures forall w :: InThread(byId, y, w) <==> InThread(byId, x, w)
  {
    var up := Linked(byId);
    forall w | w in byId
      ensures Meet(up, y, w) <==> Meet(up, x, w)
    {
      if Meet(up, y, w) {
        MeetOn(up, x, y, w);
      }
      if Meet(up, x, w) {
        MeetOn(up, y, x, w);
      }
    }
  }

  /** Starting from an id that is no comment, the members agree on their thread only
      when nothing names that id. */
  lemma ThreadsAgreeIff(byId: map<string, TimelineEntry>, x: string)
    ensures (forall y :: InThread(byId, x, y) ==> forall w :: InThread(byId, y, w) <==> InThread(byId, x, w)) <==>
            (x in byId || forall c <- Named(byId) :: Named(byId)[c] != x)
  {
    ThreadHasItself(byId, x);
    if x in byId {
      forall y | InThread(byId, x, y) {
        SameThread(byId, x, y);
      }
    } else if c :| c in Named(byId) && Named(byId)[c] == x {
      ParentReached(Named(byId), c);
      assert InThread(byId, x, c) && !InThread(byId, c, x);
    } else {
      forall y | InThread(byId, x, y)
        ensures y == x
      {
        if y != x {
          var n: nat :| Climb(Named(byId), y, n) == Some(x);
          NoChildNoDescent(Named(byId), y, x, n);
        }
      }
    }
  }

  lemma {:induction false} NoChildNoDescent(up: Links, y: string, x: string, n: nat)
    requires forall c <- up :: up[c] != x
    ensures Climb(up, y, n) == Some(x) ==> y == x
    decreases n
  {
    if n > 0 && y in up {
      NoChildNoDescent(up, up[y], x, n - 1);
    }
  }

  // Resolving ------------------------------------------------------------------------------

  /** One entry under resolve (on) or unresolve of x. */
  function ResolvedEntry(e: TimelineEntry, x: string, on: bool, now: string, inThread: bool): TimelineEntry {
    if e.id == x then
      e.(resolvedAt := if on then Some(now) else None,
         resolvedByType := if on then e.resolvedByType else None,
         resolvedById := if on then e.resolvedById else None)
    else if on && e.resolvedAt.GetOr("") != "" && inThread then
      e.(resolvedAt := None, resolvedByType := None, resolvedById := None)
    else e
  }

  /** The patch of useResolveComment. */
  method ResolveComment(entries: seq<TimelineEntry>, x: string, on: bool, now: string) returns (r: seq<TimelineEntry>)
    ensures Resolves(entries, x, on, now, r)
  {
    var thread: set<string> := {};
    if on {
      thread := CollectThreadCommentIds(entries, x);
    }
    r := seq(|entries|, k requires 0 <= k < |entries| =>
      ResolvedEntry(entries[k], x, on, now, entries[k].id in thread));
  }

  ghost predicate Resolves(entries: seq<TimelineEntry>, x: string, on: bool, now: string, r: seq<TimelineEntry>) {
    && |r| == |entries|
    && forall k :: 0 <= k < |entries| ==>
         r[k] == ResolvedEntry(entries[k], x, on, now, InThread(ById(entries), x, entries[k].id))
  }

  /** Everything an entry says but whether it is resolved. */
  predicate SameComment(e: TimelineEntry, f: TimelineEntry) {
    e.isComment == f.isComment && e.id == f.id && e.parentId == f.parentId && e.content == f.content
  }

  /** Resolving or unresolving changes no entry but in its resolution. */
  lemma ResolvingKeepsComments(entries: seq<TimelineEntry>, x: string, on: bool, now: string, r: seq<TimelineEntry>)
    requires Resolves(entries, x, on, now, r)
    ensures |r| == |entries| && forall k :: 0 <= k < |r| ==> SameComment(r[k], entries[k])
  {
  }

  /** Unresolving takes the resolution off the comment and leaves all others alone. */
  lemma UnresolvedAlone(entries: seq<TimelineEntry>, x: string, now: string, r: seq<TimelineEntry>, k: nat)
    requires Resolves(entries, x, false, now, r) && k < |r|
    ensures r[k].id == x ==> r[k].resolvedAt == None && r[k].resolvedByType == None && r[k].resolvedById == None
    ensures r[k].id != x ==> r[k] == entries[k]
  {
    assert SameComment(r[k], entries[k]);
  }

  predicate IsResolved(e: TimelineEntry) {
    e.isComment && e.resolvedAt.GetOr("") != ""
  }

  /** No thread has two resolved comments. */
  ghost predicate OneResolved(entries: seq<TimelineEntry>) {
    forall e <- entries, f <- entries ::
      IsResolved(e) && IsResolved(f) && InThread(ById(entries), e.id, f.id) ==> e.id == f.id
  }

  lemma {:induction false} CommentsById(entries: seq<TimelineEntry>)
    ensures forall e <- entries :: e.isComment ==> e.id in ById(entries)
  {
    if entries == [] {
    } else {
      var n := |entries| - 1;
      CommentsById(entries[..n]);
      assert entries == entries[..n] + [entries[n]];
    }
  }

  lemma {:induction false} ResolvingKeepsLinks(entries: seq<TimelineEntry>, r: seq<TimelineEntry>)
    requires |r| == |entries|
    requires forall k :: 0 <= k < |r| ==>
      r[k].isComment == entries[k].isComment && r[k].id == entries[k].id && r[k].parentId == entries[k].parentId
    ensures ById(r).Keys == ById(entries).Keys
    ensures forall c <- ById(r) :: ById(r)[c].parentId == ById(entries)[c].parentId
  {
    if entries == [] {
    } else {
      ResolvingKeepsLinks(entries[..|entries| - 1], r[..|r| - 1]);
    }
  }

  /** Two comments of one thread that are resolved afterwards were so before. */
  lemma BothWereResolved(
      byId: map<string, TimelineEntry>, d: TimelineEntry, g: TimelineEntry, x: string, on: bool, now: string)
    requires d.isComment && g.isComment && d.id in byId && d.id != g.id && InThread(byId, d.id, g.id)
    requires IsResolved(ResolvedEntry(d, x, on, now, InThread(byId, x, d.id)))
    requires IsResolved(ResolvedEntry(g, x, on, now, InThread(byId, x, g.id)))
    ensures IsResolved(d) && IsResolved(g)
  {
    MeetsBack(byId, d.id, g.id);
  }

  /** Resolving or unresolving any id keeps at most one resolved comment in a thread. */
  lemma ResolvingKeepsOneResolved(entries: seq<TimelineEntry>, x: string, on: bool, now: string, r: seq<TimelineEntry>)
    requires OneResolved(entries) && Resolves(entries, x, on, now, r)
    ensures OneResolved(r)
  {
    ResolvingKeepsLinks(entries, r);
    var before, after := ById(entries), ById(r);
    assert Linked(before) == Linked(after) && Named(before) == Named(after);
    CommentsById(entries);
    forall j: nat, k: nat |
      j < |r| && k < |r| && IsResolved(r[j]) && IsResolved(r[k]) && InThread(after, r[j].id, r[k].id)
      ensures r[j].id == r[k].id
    {
      assert entries[j] in entries && entries[k] in entries;
      assert InThread(before, entries[j].id, entries[k].id);
      if entries[j].id != entries[k].id {
        BothWereResolved(before, entries[j], entries[k], x, on, now);
      }
    }
  }

  lemma MeetsBack(byId: map<string, TimelineEntry>, x: string, y: string)
    requires x in byId && InThread(byId, x, y)
    ensures InThread(byId, y, x)
  {
  }

  /** Resolving a comment makes it the only resolved one in its thread, from now and by
      whoever it names; the others lose their resolution, and no other thread changes. */
  lemma ResolvedAlone(entries: seq<TimelineEntry>, x: string, now: string, r: seq<TimelineEntry>, k: nat)
    requires Resolves(entries, x, true, now, r) && now != "" && k < |r| && entries[k].isComment
    ensures InThread(ById(entries), x, r[k].id) ==> (IsResolved(r[k]) <==> r[k].id == x)
    ensures !InThread(ById(entries), x, r[k].id) ==> r[k] == entries[k]
    ensures r[k].id == x ==>
      && r[k].resolvedAt == Some(now)
      && r[k].resolvedByType == entries[k].resolvedByType && r[k].resolvedById == entries[k].resolvedById
    ensures r[k].id != x && IsResolved(entries[k]) && !IsResolved(r[k]) ==>
      r[k].resolvedAt == None && r[k].resolvedByType == None && r[k].resolvedById == None
  {
    ThreadHasItself(ById(entries), x);
  }
}
