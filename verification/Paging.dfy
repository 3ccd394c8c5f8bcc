/** Fetching every page of a flat window (packages/core/issues/queries.ts,
    fetchAllFlatPages). */
module Paging {
  import opened IssueTypes
  import opened Buckets
  import opened QueryCache

  /** The server's reply to each request: the round number lets it change its mind. */
  type Api = (nat, nat) -> Page

  datatype Fetched = AllPages(issues: seq<Issue>) | DidNotAdvance

  function IdsOf(issues: seq<Issue>): set<string> {
    set i | i in issues :: i.id
  }

  /** The issues known after reading incoming: the first copy of each id, in order. */
  function Absorb(known: seq<Issue>, incoming: seq<Issue>): seq<Issue> {
    if incoming == [] then known
    else
      var n := |incoming| - 1;
      var before := Absorb(known, incoming[..n]);
      if incoming[n].id in IdsOf(before) then before else before + [incoming[n]]
  }

  lemma {:induction false} AbsorbedIdSet(known: seq<Issue>, incoming: seq<Issue>)
    ensures IdsOf(Absorb(known, incoming)) == IdsOf(known) + IdsOf(incoming)
    ensures known <= Absorb(known, incoming)
  {
    if incoming == [] {
      assert IdsOf(incoming) == {};
    } else {
      var n := |incoming| - 1;
      AbsorbedIdSet(known, incoming[..n]);
      assert incoming == incoming[..n] + [incoming[n]];
      IdsOfSnoc(incoming[..n], incoming[n]);
      IdsOfSnoc(Absorb(known, incoming[..n]), incoming[n]);
    }
  }

  lemma IdsOfSnoc(issues: seq<Issue>, i: Issue)
    ensures IdsOf(issues + [i]) == IdsOf(issues) + {i.id}
  {
  }

  lemma {:induction false} AbsorbKeepsUnique(known: seq<Issue>, incoming: seq<Issue>)
    requires UniqueIds(known)
    ensures UniqueIds(Absorb(known, incoming))
  {
    if incoming == [] {
    } else {
      var n := |incoming| - 1;
      AbsorbKeepsUnique(known, incoming[..n]);
      AppendKeepsUnique(Absorb(known, incoming[..n]), incoming[n]);
    }
  }

  lemma AbsorbedIds(known: seq<Issue>, incoming: seq<Issue>)
    ensures IdsOf(Absorb(known, incoming)) == IdsOf(known) + IdsOf(incoming)
    ensures UniqueIds(known) ==> UniqueIds(Absorb(known, incoming))
    ensures known <= Absorb(known, incoming)
  {
    AbsorbedIdSet(known, incoming);
    if UniqueIds(known) {
      AbsorbKeepsUnique(known, incoming);
    }
  }

  lemma AppendKeepsUnique(issues: seq<Issue>, i: Issue)
    ensures UniqueIds(issues) && i.id !in IdsOf(issues) ==> UniqueIds(issues + [i])
  {
    forall k | 0 <= k < |issues|
      ensures issues[k].id in IdsOf(issues)
    {
    }
  }

  lemma {:induction false} AbsorbNew(known: seq<Issue>, incoming: seq<Issue>)
    requires UniqueIds(known + incoming)
    ensures Absorb(known, incoming) == known + incoming
  {
    if incoming == [] {
    } else {
      var n := |incoming| - 1;
      assert known + incoming == (known + incoming[..n]) + [incoming[n]];
      var before := known + incoming[..n];
      assert forall k :: 0 <= k < |before| ==> before[k] == (known + incoming)[k];
      AbsorbNew(known, incoming[..n]);
      forall i <- before
        ensures i.id != incoming[n].id
      {
        var k :| 0 <= k < |before| && before[k] == i;
        assert (known + incoming)[k] == i && (known + incoming)[|before|] == incoming[n];
      }
    }
  }

  method AbsorbPage(known: seq<Issue>, knownIds: set<string>, incoming: seq<Issue>)
    returns (issues: seq<Issue>, ids: set<string>, added: nat)
    requires knownIds == IdsOf(known)
    ensures issues == Absorb(known, incoming) && ids == IdsOf(issues) && |issues| == |known| + added
  {
    issues, ids, added := known, knownIds, 0;
    for n := 0 to |incoming|
      invariant issues == Absorb(known, incoming[..n]) && ids == IdsOf(issues)
      invariant |issues| == |known| + added
    {
      assert incoming[..n + 1][..n] == incoming[..n] && incoming[..n + 1][n] == incoming[n];
      if incoming[n].id !in ids {
        ids := ids + {incoming[n].id};
        issues := issues + [incoming[n]];
        added := added + 1;
      }
    }
    assert incoming[..|incoming|] == incoming;
  }

  /** A server that holds still: every request is answered by a non-empty prefix of
      what is left, and by the true total. */
  ghost predicate HoldsStill(api: Api, all: seq<Issue>) {
    && UniqueIds(all)
    && forall round: nat, offset: nat | offset <= |all| ::
         && api(round, offset).total == |all|
         && api(round, offset).issues <= all[offset..]
         && (offset < |all| ==> api(round, offset).issues != [])
  }

  ghost predicate Bounded(api: Api, bound: nat) {
    forall round: nat, offset: nat :: api(round, offset).total <= bound
  }

  /** The next page of a server that holds still continues the list. */
  lemma StillPage(api: Api, all: seq<Issue>, round: nat, offset: nat, known: seq<Issue>)
    requires HoldsStill(api, all) && offset <= |all| && known == all[..offset]
    ensures
      var page := api(round, offset);
      var next := offset + |page.issues|;
      && next <= |all| && Absorb(known, page.issues) == all[..next]
      && page.total == |all| && (next == offset ==> offset == |all|)
  {
    var page := api(round, offset);
    var n := |page.issues|;
    assert page.issues == all[offset..][..n];
    assert all[..offset] + page.issues == all[..offset + n];
    AbsorbNew(known, page.issues);
  }

  // The requests and what is known between them ---------------------------------------

  /** Where request n starts: behind all the issues replied so far. */
  function OffsetOf(api: Api, n: nat): nat
    decreases n, 0
  {
    if n == 0 then 0 else OffsetOf(api, n - 1) + |Reply(api, n - 1).issues|
  }

  function Reply(api: Api, n: nat): Page
    decreases n, 1
  {
    api(n, OffsetOf(api, n))
  }

  function KnownAfter(api: Api, n: nat): seq<Issue> {
    if n == 0 then [] else Absorb(KnownAfter(api, n - 1), Reply(api, n - 1).issues)
  }

  /** Reply n brought something new, and not yet enough. */
  predicate GoesOn(api: Api, n: nat) {
    |KnownAfter(api, n)| < |KnownAfter(api, n + 1)| < Reply(api, n).total
  }

  /** Some of the first n replies brought the issue. */
  predicate Replied(api: Api, n: nat, i: Issue) {
    exists k :: 0 <= k < n && i in Reply(api, k).issues
  }

  lemma {:induction false} KnownIsReplied(api: Api, n: nat, i: Issue)
    requires i in KnownAfter(api, n)
    ensures Replied(api, n, i)
  {
    if n == 0 {
    } else {
      AbsorbedFrom(KnownAfter(api, n - 1), Reply(api, n - 1).issues, i);
      if i in KnownAfter(api, n - 1) {
        KnownIsReplied(api, n - 1, i);
      }
    }
  }

  lemma {:induction false} AbsorbedFrom(known: seq<Issue>, incoming: seq<Issue>, i: Issue)
    requires i in Absorb(known, incoming)
    ensures i in known || i in incoming
  {
    if incoming == [] {
    } else {
      var n := |incoming| - 1;
      if i in Absorb(known, incoming[..n]) {
        AbsorbedFrom(known, incoming[..n], i);
      }
    }
  }

  lemma {:induction false} KnownIsUnique(api: Api, n: nat)
    ensures UniqueIds(KnownAfter(api, n))
  {
    if n == 0 {
    } else {
      KnownIsUnique(api, n - 1);
      AbsorbKeepsUnique(KnownAfter(api, n - 1), Reply(api, n - 1).issues);
    }
  }

  /** While a server that holds still is read, what is known is the list so far. */
  lemma {:induction false} StillKnown(api: Api, all: seq<Issue>, n: nat)
    requires HoldsStill(api, all)
    ensures OffsetOf(api, n) <= |all| && KnownAfter(api, n) == all[..OffsetOf(api, n)]
  {
    if n == 0 {
    } else {
      StillKnown(api, all, n - 1);
      StillPage(api, all, n - 1, OffsetOf(api, n - 1), KnownAfter(api, n - 1));
    }
  }

  /** The last reply brought enough, or nothing new. */
  predicate Ends(api: Api, round: nat, r: Fetched) {
    if r.AllPages? then
      r.issues == KnownAfter(api, round + 1) && |r.issues| >= Reply(api, round).total
    else
      && KnownAfter(api, round + 1) == KnownAfter(api, round)
      && |KnownAfter(api, round)| < Reply(api, round).total
  }

  lemma StillReadsAll(api: Api, all: seq<Issue>, round: nat, r: Fetched)
    requires HoldsStill(api, all) && Ends(api, round, r)
    ensures r == AllPages(all)
  {
    StillKnown(api, all, round);
    StillKnown(api, all, round + 1);
    StillPage(api, all, round, OffsetOf(api, round), KnownAfter(api, round));
  }

  /** What a reply that brought nothing new leaves. */
  lemma NothingNew(known: seq<Issue>, incoming: seq<Issue>)
    requires |Absorb(known, incoming)| == |known|
    ensures Absorb(known, incoming) == known && IdsOf(incoming) <= IdsOf(known)
  {
    AbsorbedIdSet(known, incoming);
  }

  /** What holds of the result, however the loop came to it. */
  lemma Outcome(api: Api, round: nat, r: Fetched)
    requires Ends(api, round, r)
    ensures r.AllPages? ==> UniqueIds(r.issues) && forall i <- r.issues :: Replied(api, round + 1, i)
    ensures r.DidNotAdvance? ==> IdsOf(Reply(api, round).issues) <= IdsOf(KnownAfter(api, round))
  {
    KnownIsUnique(api, round + 1);
    if r.AllPages? {
      forall i | i in r.issues
        ensures Replied(api, round + 1, i)
      {
        KnownIsReplied(api, round + 1, i);
      }
    } else {
      NothingNew(KnownAfter(api, round), Reply(api, round).issues);
    }
  }

  /** fetchAllFlatPages. Against any server whose totals are bounded it stops at the
      first reply that is enough or brings nothing new: with distinct issues, all of
      them replied and at least as many as the last reply's total, or giving up. A
      server that holds still is read exactly. */
  method FetchAllFlatPages(api: Api, bound: nat, ghost all: seq<Issue>) returns (r: Fetched, round: nat)
    requires Bounded(api, bound)
    ensures forall n :: 0 <= n < round ==> GoesOn(api, n)
    ensures Ends(api, round, r)
    ensures r.AllPages? ==> UniqueIds(r.issues) && forall i <- r.issues :: Replied(api, round + 1, i)
    ensures r.DidNotAdvance? ==> IdsOf(Reply(api, round).issues) <= IdsOf(KnownAfter(api, round))
    ensures HoldsStill(api, all) ==> r == AllPages(all)
  {
    r, round := FetchUntilEnd(api, bound);
    Outcome(api, round, r);
    if HoldsStill(api, all) {
      StillReadsAll(api, all, round, r);
    }
  }

  /** The loop of fetchAllFlatPages. */
  method FetchUntilEnd(api: Api, bound: nat) returns (r: Fetched, round: nat)
    requires Bounded(api, bound)
    ensures forall n :: 0 <= n < round ==> GoesOn(api, n)
    ensures Ends(api, round, r)
  {
    var issues: seq<Issue>, ids: set<string>, offset: nat := [], {}, 0;
    round := 0;
    while true
      invariant offset == OffsetOf(api, round) && issues == KnownAfter(api, round) && ids == IdsOf(issues)
      invariant forall n :: 0 <= n < round ==> GoesOn(api, n)
      decreases bound - |issues|
    {
      var response := api(round, offset);
      var known, added := issues, 0;
      issues, ids, added := AbsorbPage(known, ids, response.issues);
      if |issues| >= response.total {
        return AllPages(issues), round;
      }
      if response.issues == [] || added == 0 {
        NothingNew(known, response.issues);
        return DidNotAdvance, round;
      }
      assert GoesOn(api, round);
      offset := offset + |response.issues|;
      round := round + 1;
    }
  }
}
