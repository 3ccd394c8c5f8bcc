/** When the search of the timeline ends, for any list of entries: ids may repeat and
    parent links may close cycles (apps/mobile/lib/timeline-thread.ts). */
module TimelineSearch {
  import opened QueryCache
  import opened IssueTypes
  import opened Threads
  import opened Timeline

  /** The ids the search appends when it visits p. */
  function KidIds(entries: seq<TimelineEntry>, p: string): seq<string> {
    IdSeq(Kids(entries, CommentIds(entries), p))
  }

  /** A way down from r, from each id to a reply to it. */
  ghost predicate Path(entries: seq<TimelineEntry>, r: string, p: seq<string>) {
    && p != [] && p[0] == r
    && forall k :: 0 < k < |p| ==> p[k] in KidIds(entries, p[k - 1])
  }

  /** Some way down from r meets an id twice. */
  ghost predicate MeetsTwice(entries: seq<TimelineEntry>, r: string) {
    exists p :: Path(entries, r, p) && !Distinct(p)
  }

  /** A kid's id comes from a reply to a. */
  lemma KidEntry(entries: seq<TimelineEntry>, a: string, k: string) returns (e: TimelineEntry)
    requires k in KidIds(entries, a)
    ensures e in entries && IsReply(e, CommentIds(entries)) && e.parentId.value == a && e.id == k
  {
    var kids := Kids(entries, CommentIds(entries), a);
    var j :| 0 <= j < |kids| && IdSeq(kids)[j] == k;
    e := kids[j];
    assert e in kids;
  }

  lemma PathFromParent(entries: seq<TimelineEntry>, a: string, k: string, p: seq<string>)
    requires k in KidIds(entries, a) && Path(entries, k, p)
    ensures Path(entries, a, [a] + p)
  {
    var q := [a] + p;
    assert forall j :: 0 < j < |q| ==> q[j] == p[j - 1];
  }

  // Endless ----------------------------------------------------------------------------

  /** Below an id that is met twice there is a reply that is, too. */
  lemma TwiceGoesOn(entries: seq<TimelineEntry>, a: string) returns (kid: string)
    requires MeetsTwice(entries, a)
    ensures kid in KidIds(entries, a) && MeetsTwice(entries, kid)
  {
    var p :| Path(entries, a, p) && !Distinct(p);
    var i, j :| 0 <= i < j < |p| && p[i] == p[j];
    kid := p[1];
    if i > 0 {
      assert p[1..][i - 1] == p[1..][j - 1];
      assert Path(entries, kid, p[1..]) && !Distinct(p[1..]);
    } else {
      RoundPath(entries, a, p, j);
    }
  }

  /** A way down that comes back goes round again from its second id. */
  lemma RoundPath(entries: seq<TimelineEntry>, a: string, p: seq<string>, j: nat)
    requires Path(entries, a, p) && 0 < j < |p| && p[j] == a
    ensures MeetsTwice(entries, p[1])
  {
    var q := p[1..j + 1] + [p[1]];
    assert forall k :: 0 <= k < j ==> q[k] == p[k + 1];
    assert q[j] == q[0] == p[1];
    assert Path(entries, p[1], q) && !Distinct(q);
  }

  /** The queue after the next visit. */
  function NextQueue(entries: seq<TimelineEntry>, queue: seq<string>): seq<string>
    requires queue != []
  {
    queue[1..] + KidIds(entries, queue[0])
  }

  lemma StaysQueued(entries: seq<TimelineEntry>, queue: seq<string>, j: nat) returns (k: nat)
    requires j < |queue| && MeetsTwice(entries, queue[j])
    ensures k < |NextQueue(entries, queue)| && MeetsTwice(entries, NextQueue(entries, queue)[k])
  {
    if j == 0 {
      var kid := TwiceGoesOn(entries, queue[0]);
      var m :| 0 <= m < |KidIds(entries, queue[0])| && KidIds(entries, queue[0])[m] == kid;
      k := |queue| - 1 + m;
    } else {
      k := j - 1;
    }
  }

  lemma {:induction false} NeverEmpty(entries: seq<TimelineEntry>, queue: seq<string>, j: nat, n: nat)
    requires j < |queue| && MeetsTwice(entries, queue[j])
    ensures QueueAfter(entries, queue, n) != []
    decreases n
  {
    if n == 0 {
    } else {
      var k := StaysQueued(entries, queue, j);
      NeverEmpty(entries, NextQueue(entries, queue), k, n - 1);
    }
  }

  // Ending -----------------------------------------------------------------------------

  /** The visits under an id, if every id is visited at most once on a way down. */
  function Visits(entries: seq<TimelineEntry>, id: string, open: set<string>): nat
    decreases open, 0, 0
  {
    if id !in open then 1 else 1 + VisitsOf(entries, KidIds(entries, id), open - {id})
  }

  function VisitsOf(entries: seq<TimelineEntry>, ids: seq<string>, open: set<string>): nat
    decreases open, 1, |ids|
  {
    if ids == [] then 0 else Visits(entries, ids[0], open) + VisitsOf(entries, ids[1..], open)
  }

  /** No way down from id meets an id twice or one outside the given ids. */
  ghost predicate Tame(entries: seq<TimelineEntry>, id: string, ids: set<string>) {
    forall p :: Path(entries, id, p) ==> Distinct(p) && forall x <- p :: x in ids
  }

  lemma TameHere(entries: seq<TimelineEntry>, id: string, ids: set<string>)
    requires Tame(entries, id, ids)
    ensures id in ids
  {
    assert Path(entries, id, [id]);
    assert id in [id];
  }

  lemma TameKid(entries: seq<TimelineEntry>, id: string, k: string, ids: set<string>)
    requires Tame(entries, id, ids) && k in KidIds(entries, id)
    ensures Tame(entries, k, ids - {id}) && Tame(entries, k, ids)
  {
    forall p | Path(entries, k, p)
      ensures Distinct(p) && forall x <- p :: x in ids && x != id
    {
      PathFromParent(entries, id, k, p);
      assert Distinct([id] + p) && forall x <- [id] + p :: x in ids;
      DistinctTail(id, p);
    }
  }

  lemma DistinctTail(id: string, p: seq<string>)
    requires Distinct([id] + p)
    ensures Distinct(p) && id !in p
  {
    var q := [id] + p;
    assert forall k :: 0 <= k < |p| ==> q[k + 1] == p[k];
    assert q[0] == id;
  }

  /** The visits do not depend on the ids that are allowed. */
  lemma {:induction false} VisitsSame(entries: seq<TimelineEntry>, id: string, a: set<string>, b: set<string>)
    requires Tame(entries, id, a) && Tame(entries, id, b)
    ensures Visits(entries, id, a) == Visits(entries, id, b)
    decreases a, 0, 0
  {
    TameHere(entries, id, a);
    TameHere(entries, id, b);
    forall k | k in KidIds(entries, id)
      ensures Tame(entries, k, a - {id}) && Tame(entries, k, b - {id})
    {
      TameKid(entries, id, k, a);
      TameKid(entries, id, k, b);
    }
    VisitsOfSame(entries, KidIds(entries, id), a - {id}, b - {id});
  }

  lemma {:induction false} VisitsOfSame(entries: seq<TimelineEntry>, ids: seq<string>, a: set<string>, b: set<string>)
    requires forall k <- ids :: Tame(entries, k, a) && Tame(entries, k, b)
    ensures VisitsOf(entries, ids, a) == VisitsOf(entries, ids, b)
    decreases a, 1, |ids|
  {
    if ids == [] {
    } else {
      VisitsSame(entries, ids[0], a, b);
      VisitsOfSame(entries, ids[1..], a, b);
    }
  }

  lemma {:induction false} VisitsOfAppend(
      entries: seq<TimelineEntry>, ids: seq<string>, more: seq<string>, a: set<string>)
    ensures VisitsOf(entries, ids + more, a) == VisitsOf(entries, ids, a) + VisitsOf(entries, more, a)
  {
    if ids == [] {
      assert ids + more == more;
    } else {
      assert (ids + more)[1..] == ids[1..] + more;
      VisitsOfAppend(entries, ids[1..], more, a);
    }
  }

  /** A visit takes one off the visits to come. */
  lemma OneVisitLess(entries: seq<TimelineEntry>, queue: seq<string>, all: set<string>)
    requires queue != [] && Tame(entries, queue[0], all)
    ensures VisitsOf(entries, queue, all) == VisitsOf(entries, NextQueue(entries, queue), all) + 1
    ensures forall k <- KidIds(entries, queue[0]) :: Tame(entries, k, all)
  {
    var id, kids := queue[0], KidIds(entries, queue[0]);
    TameHere(entries, id, all);
    forall k | k in kids
      ensures Tame(entries, k, all) && Tame(entries, k, all - {id})
    {
      TameKid(entries, id, k, all);
    }
    VisitsOfSame(entries, kids, all - {id}, all);
    VisitsOfAppend(entries, queue[1..], kids, all);
  }

  lemma {:induction false} RunsEmpty(entries: seq<TimelineEntry>, queue: seq<string>, all: set<string>)
    requires forall a <- queue :: Tame(entries, a, all)
    ensures QueueAfter(entries, queue, VisitsOf(entries, queue, all)) == []
    decreases VisitsOf(entries, queue, all)
  {
    if queue == [] {
    } else {
      OneVisitLess(entries, queue, all);
      RunsEmpty(entries, NextQueue(entries, queue), all);
    }
  }

  lemma PathInEntries(entries: seq<TimelineEntry>, r: string, p: seq<string>)
    requires Path(entries, r, p)
    ensures forall x <- p :: x in EntryIds(entries) + {r}
  {
    forall k | 0 <= k < |p|
      ensures p[k] in EntryIds(entries) + {r}
    {
      if k > 0 {
        var e := KidEntry(entries, p[k - 1], p[k]);
      }
    }
  }

  /** The search under r ends exactly when no way down from r meets an id twice. */
  lemma SearchEndsIff(entries: seq<TimelineEntry>, r: string)
    ensures (exists n: nat :: QueueAfter(entries, [r], n) == []) <==> !MeetsTwice(entries, r)
  {
    if MeetsTwice(entries, r) {
      forall n: nat
        ensures QueueAfter(entries, [r], n) != []
      {
        NeverEmpty(entries, [r], 0, n);
      }
    } else {
      var all := EntryIds(entries) + {r};
      forall p | Path(entries, r, p)
        ensures forall x <- p :: x in all
      {
        PathInEntries(entries, r, p);
      }
      RunsEmpty(entries, [r], all);
    }
  }

  // Distinct ids -----------------------------------------------------------------------

  lemma {:induction false} PathIsClimb(
      entries: seq<TimelineEntry>, up: Links, r: string, p: seq<string>, i: nat, j: nat)
    requires LinksFit(entries, up) && Path(entries, r, p) && i <= j < |p|
    ensures Climb(up, p[j], j - i) == Some(p[i])
    decreases j
  {
    if i == j {
    } else {
      var e := KidEntry(entries, p[j - 1], p[j]);
      PathIsClimb(entries, up, r, p, i, j - 1);
    }
  }

  /** With distinct ids no way down from a top-level entry meets an id twice, so its
      search ends. */
  lemma DistinctIdsEnd(entries: seq<TimelineEntry>, root: TimelineEntry)
    requires UniqueEntries(entries) && root in entries && !IsReply(root, CommentIds(entries))
    ensures exists n: nat :: QueueAfter(entries, [root.id], n) == []
  {
    var up := Linked(ById(entries));
    UniqueLinksFit(entries);
    forall p | Path(entries, root.id, p)
      ensures Distinct(p)
    {
      forall i, j | 0 <= i < j < |p|
        ensures p[i] != p[j]
      {
        PathIsClimb(entries, up, root.id, p, i, j);
        PathIsClimb(entries, up, root.id, p, 0, j);
        if p[i] == p[j] {
          CycleIsKept(up, p[j], j - i, j);
        }
      }
    }
    SearchEndsIff(entries, root.id);
  }
}
