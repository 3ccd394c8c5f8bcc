/** The task transcript (packages/core/chat/queries.ts): messages arrive live and
    by backfill, in any order and more than once, and are merged by sequence
    number. */
module Transcript {

  import opened IssueTypes

  datatype Message = Message(number: int, content: string)

  ghost predicate Highest(messages: seq<Message>, h: int) {
    && (exists k :: 0 <= k < |messages| && messages[k].number == h)
    && forall k :: 0 <= k < |messages| ==> messages[k].number <= h
  }

  method HighestTaskMessageSeq(messages: Option<seq<Message>>) returns (highest: Option<int>)
    ensures highest.None? <==> messages.GetOr([]) == []
    ensures highest.Some? ==> Highest(messages.GetOr([]), highest.value)
  {
    if messages.None? || messages.value == [] {
      return None;
    }
    highest := None;
    for k := 0 to |messages.value|
      invariant highest.None? <==> k == 0
      invariant highest.Some? ==> Highest(messages.value[..k], highest.value)
    {
      var before, upTo := messages.value[..k], messages.value[..k + 1];
      assert upTo == before + [messages.value[k]];
      if highest.None? || messages.value[k].number > highest.value {
        highest := Some(messages.value[k].number);
        assert upTo[k].number == highest.value;
      } else {
        var at :| 0 <= at < k && before[at].number == highest.value;
        assert upTo[at].number == highest.value;
      }
    }
    assert messages.value[..|messages.value|] == messages.value;
  }

  // Merging --------------------------------------------------------------------------

  function Numbers(messages: seq<Message>): set<int> {
    set m <- messages :: m.number
  }

  function Fresh(known: set<int>, incoming: seq<Message>): seq<Message> {
    if incoming == [] then []
    else (if incoming[0].number in known then [] else [incoming[0]]) + Fresh(known, incoming[1..])
  }

  /** Where a stable sort puts a further element: behind its equals. */
  function Place(sorted: seq<Message>, m: Message): seq<Message> {
    if sorted == [] || sorted[|sorted| - 1].number <= m.number then sorted + [m]
    else Place(sorted[..|sorted| - 1], m) + [sorted[|sorted| - 1]]
  }

  function StableSort(messages: seq<Message>): seq<Message> {
    if messages == [] then [] else Place(StableSort(messages[..|messages| - 1]), messages[|messages| - 1])
  }

  function Merge(existing: seq<Message>, incoming: seq<Message>): seq<Message> {
    var added := Fresh(Numbers(existing), incoming);
    if incoming == [] || added == [] then existing else StableSort(existing + added)
  }

  predicate Ascending(messages: seq<Message>) {
    forall j, k :: 0 <= j < k < |messages| ==> messages[j].number < messages[k].number
  }

  predicate Sorted(messages: seq<Message>) {
    forall j, k :: 0 <= j < k < |messages| ==> messages[j].number <= messages[k].number
  }

  predicate Distinct(messages: seq<Message>) {
    forall j, k :: 0 <= j < k < |messages| ==> messages[j].number != messages[k].number
  }

  /** The messages under one number, in list order. */
  function WithNumber(messages: seq<Message>, n: int): seq<Message> {
    if messages == [] then []
    else WithNumber(messages[..|messages| - 1], n)
         + (if messages[|messages| - 1].number == n then [messages[|messages| - 1]] else [])
  }

  lemma {:induction false} PlaceAdds(sorted: seq<Message>, m: Message)
    ensures multiset(Place(sorted, m)) == multiset(sorted) + multiset{m}
    ensures |Place(sorted, m)| == |sorted| + 1
  {
    if sorted != [] && sorted[|sorted| - 1].number > m.number {
      PlaceAdds(sorted[..|sorted| - 1], m);
      assert sorted == sorted[..|sorted| - 1] + [sorted[|sorted| - 1]];
    }
  }

  lemma SortedSnoc(sorted: seq<Message>, last: Message)
    requires Sorted(sorted) && (sorted != [] ==> sorted[|sorted| - 1].number <= last.number)
    ensures Sorted(sorted + [last])
  {
  }

  lemma {:induction false} PlaceSorts(sorted: seq<Message>, m: Message)
    requires Sorted(sorted)
    ensures Sorted(Place(sorted, m))
  {
    if sorted == [] || sorted[|sorted| - 1].number <= m.number {
      SortedSnoc(sorted, m);
    } else {
      var init, last := sorted[..|sorted| - 1], sorted[|sorted| - 1];
      PlaceSorts(init, m);
      PlaceAdds(init, m);
      var placed := Place(init, m);
      assert placed[|placed| - 1] in multiset(placed);
      SortedSnoc(placed, last);
    }
  }

  lemma {:induction false} PlaceIsStable(sorted: seq<Message>, m: Message, n: int)
    requires Sorted(sorted)
    ensures WithNumber(Place(sorted, m), n) == WithNumber(sorted, n) + (if m.number == n then [m] else [])
  {
    if sorted == [] || sorted[|sorted| - 1].number <= m.number {
      WithNumberSnoc(sorted, m, n);
    } else {
      var init, last := sorted[..|sorted| - 1], sorted[|sorted| - 1];
      PlaceIsStable(init, m, n);
      WithNumberSnoc(Place(init, m), last, n);
    }
  }

  lemma WithNumberSnoc(messages: seq<Message>, last: Message, n: int)
    ensures WithNumber(messages + [last], n) == WithNumber(messages, n) + (if last.number == n then [last] else [])
  {
    assert (messages + [last])[..|messages|] == messages;
  }

  /** The sort is a sort: ordered, the same messages, equals in their old order. */
  lemma {:induction false} StableSortSorts(messages: seq<Message>)
    ensures Sorted(StableSort(messages)) && multiset(StableSort(messages)) == multiset(messages)
    ensures forall n :: WithNumber(StableSort(messages), n) == WithNumber(messages, n)
    ensures |StableSort(messages)| == |messages|
  {
    if messages == [] {
    } else {
      var init, last := messages[..|messages| - 1], messages[|messages| - 1];
      StableSortSorts(init);
      PlaceSorts(StableSort(init), last);
      PlaceAdds(StableSort(init), last);
      assert messages == init + [last];
      forall n
        ensures WithNumber(StableSort(messages), n) == WithNumber(messages, n)
      {
        PlaceIsStable(StableSort(init), last, n);
      }
    }
  }

  lemma {:induction false} FreshMessages(known: set<int>, incoming: seq<Message>)
    ensures forall m :: m in Fresh(known, incoming) <==> m in incoming && m.number !in known
  {
    if incoming == [] {
    } else {
      FreshMessages(known, incoming[1..]);
      assert incoming == [incoming[0]] + incoming[1..];
    }
  }

  lemma {:induction false} FreshDistinct(known: set<int>, incoming: seq<Message>)
    requires Distinct(incoming)
    ensures Distinct(Fresh(known, incoming))
  {
    if incoming == [] {
    } else {
      FreshDistinct(known, incoming[1..]);
      FreshMessages(known, incoming[1..]);
      assert forall m <- incoming[1..] :: m.number != incoming[0].number;
    }
  }

  /** What is shown after a merge: everything that was, and what has a new number. */
  lemma MergeShows(existing: seq<Message>, incoming: seq<Message>)
    ensures forall m ::
      m in Merge(existing, incoming) <==> m in existing || (m in incoming && m.number !in Numbers(existing))
  {
    var added := Fresh(Numbers(existing), incoming);
    FreshMessages(Numbers(existing), incoming);
    StableSortSorts(existing + added);
    forall m
      ensures m in StableSort(existing + added) <==> m in existing || m in added
    {
      assert m in multiset(StableSort(existing + added)) <==> m in multiset(existing + added);
    }
  }

  lemma MergeNumbers(existing: seq<Message>, incoming: seq<Message>)
    ensures Numbers(Merge(existing, incoming)) == Numbers(existing) + Numbers(incoming)
  {
    MergeShows(existing, incoming);
    forall n
      ensures n in Numbers(Merge(existing, incoming)) <==> n in Numbers(existing) || n in Numbers(incoming)
    {
      if n in Numbers(existing) {
        var m :| m in existing && m.number == n;
        assert m in Merge(existing, incoming);
      } else if n in Numbers(incoming) {
        var m :| m in incoming && m.number == n;
        assert m in Merge(existing, incoming);
      }
    }
  }

  /** A known number keeps exactly the messages it had. */
  lemma ExistingWins(existing: seq<Message>, incoming: seq<Message>, n: int)
    requires n in Numbers(existing)
    ensures WithNumber(Merge(existing, incoming), n) == WithNumber(existing, n)
  {
    var added := Fresh(Numbers(existing), incoming);
    FreshMessages(Numbers(existing), incoming);
    StableSortSorts(existing + added);
    WithoutNumber(existing, added, n);
  }

  lemma {:induction false} WithoutNumber(a: seq<Message>, b: seq<Message>, n: int)
    requires forall m <- b :: m.number != n
    ensures WithNumber(a + b, n) == WithNumber(a, n)
  {
    if b == [] {
      assert a + b == a;
    } else {
      assert (a + b)[..|a + b| - 1] == a + b[..|b| - 1];
      WithoutNumber(a, b[..|b| - 1], n);
    }
  }

  /** A strictly ascending transcript stays so exactly when the new messages have
      distinct numbers. */
  lemma MergeAscendingIff(existing: seq<Message>, incoming: seq<Message>)
    requires Ascending(existing)
    ensures Ascending(Merge(existing, incoming)) <==> Distinct(Fresh(Numbers(existing), incoming))
  {
    var added := Fresh(Numbers(existing), incoming);
    FreshMessages(Numbers(existing), incoming);
    if incoming == [] || added == [] {
      assert Merge(existing, incoming) == existing;
    } else {
      DistinctAppend(existing, added);
      SortAscendingIff(existing + added);
    }
  }

  lemma SortAscendingIff(messages: seq<Message>)
    ensures Ascending(StableSort(messages)) <==> Distinct(messages)
  {
    StableSortSorts(messages);
    SameDistinct(messages, StableSort(messages));
    SameDistinct(StableSort(messages), messages);
    SortedAndDistinct(StableSort(messages));
  }

  lemma SameDistinct(a: seq<Message>, b: seq<Message>)
    requires forall n :: WithNumber(a, n) == WithNumber(b, n)
    ensures Distinct(a) ==> Distinct(b)
  {
    DistinctByNumber(a);
    DistinctByNumber(b);
    if Distinct(a) {
      forall n
        ensures |WithNumber(b, n)| <= 1
      {
        assert WithNumber(a, n) == WithNumber(b, n);
      }
    }
  }

  lemma SortedAndDistinct(messages: seq<Message>)
    requires Sorted(messages)
    ensures Ascending(messages) <==> Distinct(messages)
  {
  }

  lemma DistinctAppend(a: seq<Message>, b: seq<Message>)
    requires Distinct(a) && forall m <- b :: m.number !in Numbers(a)
    ensures Distinct(a + b) <==> Distinct(b)
  {
    assert forall m <- a :: m.number in Numbers(a);
    if Distinct(a + b) {
      assert forall k :: 0 <= k < |b| ==> (a + b)[|a| + k] == b[k];
    }
  }

  lemma DistinctByNumber(messages: seq<Message>)
    ensures Distinct(messages) <==> forall n :: |WithNumber(messages, n)| <= 1
  {
    if Distinct(messages) {
      forall n
        ensures |WithNumber(messages, n)| <= 1
      {
        AtMostOne(messages, n);
      }
    } else {
      var j, k :| 0 <= j < k < |messages| && messages[j].number == messages[k].number;
      TwoOf(messages, j, k);
    }
  }

  lemma {:induction false} AtMostOne(messages: seq<Message>, n: int)
    requires Distinct(messages)
    ensures |WithNumber(messages, n)| <= 1
    ensures WithNumber(messages, n) != [] ==> n in Numbers(messages)
  {
    if messages == [] {
    } else {
      AtMostOne(messages[..|messages| - 1], n);
    }
  }

  lemma {:induction false} TwoOf(messages: seq<Message>, j: nat, k: nat)
    requires j < k < |messages| && messages[j].number == messages[k].number
    ensures |WithNumber(messages, messages[j].number)| >= 2
  {
    if k < |messages| - 1 {
      TwoOf(messages[..|messages| - 1], j, k);
    } else {
      OneOf(messages[..|messages| - 1], j);
    }
  }

  lemma {:induction false} OneOf(messages: seq<Message>, j: nat)
    requires j < |messages|
    ensures |WithNumber(messages, messages[j].number)| >= 1
  {
    if j < |messages| - 1 {
      OneOf(messages[..|messages| - 1], j);
    }
  }

  // Any order of delivery ------------------------------------------------------------

  function MergeAll(start: seq<Message>, batches: seq<seq<Message>>): seq<Message> {
    if batches == [] then start else Merge(MergeAll(start, batches[..|batches| - 1]), batches[|batches| - 1])
  }

  function Delivered(batches: seq<seq<Message>>): set<Message> {
    set batch <- batches, m <- batch :: m
  }

  /** Equal numbers carry equal messages. */
  predicate Consistent(messages: set<Message>) {
    forall a <- messages, b <- messages :: a.number == b.number ==> a == b
  }

  predicate DistinctBatches(batches: seq<seq<Message>>) {
    forall batch <- batches :: Distinct(batch)
  }

  lemma {:induction false} FoldStaysAscending(start: seq<Message>, batches: seq<seq<Message>>)
    requires Ascending(start) && DistinctBatches(batches)
    ensures Ascending(MergeAll(start, batches))
  {
    if batches == [] {
    } else {
      var init, last := batches[..|batches| - 1], batches[|batches| - 1];
      FoldStaysAscending(start, init);
      FreshDistinct(Numbers(MergeAll(start, init)), last);
      MergeAscendingIff(MergeAll(start, init), last);
    }
  }

  lemma {:induction false} FoldShows(start: seq<Message>, batches: seq<seq<Message>>)
    requires Consistent((set m <- start) + Delivered(batches))
    ensures forall m :: m in MergeAll(start, batches) <==> m in start || m in Delivered(batches)
  {
    if batches == [] {
    } else {
      var init, last := batches[..|batches| - 1], batches[|batches| - 1];
      assert batches == init + [last];
      assert forall m :: m in Delivered(batches) <==> m in Delivered(init) || m in last;
      FoldShows(start, init);
      MergeShows(MergeAll(start, init), last);
      forall m | m in last && m.number in Numbers(MergeAll(start, init))
        ensures m in MergeAll(start, init)
      {
        var x :| x in MergeAll(start, init) && x.number == m.number;
        assert x in (set m <- start) + Delivered(batches) && m in (set m <- start) + Delivered(batches);
      }
    }
  }

  lemma LastIsLargest(messages: seq<Message>, m: Message)
    requires Ascending(messages) && m in messages
    ensures m.number < messages[|messages| - 1].number || m == messages[|messages| - 1]
  {
  }

  lemma SomeMember(messages: seq<Message>)
    ensures messages != [] ==> exists m :: m in messages
  {
    if messages != [] {
      assert messages[0] in messages;
    }
  }

  /** An ascending transcript is determined by its messages. */
  lemma {:induction false} AscendingIsUnique(a: seq<Message>, b: seq<Message>)
    requires Ascending(a) && Ascending(b) && forall m :: m in a <==> m in b
    ensures a == b
  {
    SomeMember(a);
    SomeMember(b);
    if a != [] && b != [] {
      LastIsLargest(a, b[|b| - 1]);
      LastIsLargest(b, a[|a| - 1]);
      InitMembers(a);
      InitMembers(b);
      AscendingIsUnique(a[..|a| - 1], b[..|b| - 1]);
    }
  }

  lemma InitMembers(messages: seq<Message>)
    requires Ascending(messages) && messages != []
    ensures
      var init, last := messages[..|messages| - 1], messages[|messages| - 1];
      && messages == init + [last]
      && forall m :: m in init <==> m in messages && m != last
  {
    var init, last := messages[..|messages| - 1], messages[|messages| - 1];
    assert messages == init + [last];
    assert last !in init;
  }

  /** Order, repetition and regrouping of the batches do not matter: the same
      messages give the same transcript. */
  lemma DeliveryOrderIsIrrelevant(start: seq<Message>, first: seq<seq<Message>>, second: seq<seq<Message>>)
    requires Ascending(start) && DistinctBatches(first) && DistinctBatches(second)
    requires Consistent((set m <- start) + Delivered(first))
    requires Delivered(first) == Delivered(second)
    ensures MergeAll(start, first) == MergeAll(start, second)
  {
    FoldStaysAscending(start, first);
    FoldStaysAscending(start, second);
    FoldShows(start, first);
    FoldShows(start, second);
    AscendingIsUnique(MergeAll(start, first), MergeAll(start, second));
  }

  /** A batch that repeats a message keeps both copies, so distinctness is needed. */
  lemma RepeatInBatchStays(m: Message)
    ensures Delivered([[m, m]]) == Delivered([[m], [m]])
    ensures MergeAll([], [[m, m]]) != MergeAll([], [[m], [m]])
  {
    FoldStaysAscending([], [[m], [m]]);
    FreshRepeat(m);
    MergeAscendingIff([], [m, m]);
    assert [[m, m]][..0] == [];
    Delivers([[m, m]], 0, m);
    Delivers([[m], [m]], 0, m);
    assert Delivered([[m, m]]) == {m};
    assert Delivered([[m], [m]]) == {m};
    assert MergeAll([], [[m, m]]) == Merge([], [m, m]);
  }

  lemma Delivers(batches: seq<seq<Message>>, j: nat, m: Message)
    requires j < |batches| && m in batches[j]
    ensures m in Delivered(batches)
  {
    assert batches[j] in batches;
  }

  lemma FreshRepeat(m: Message)
    ensures !Distinct(Fresh(Numbers([]), [m, m]))
  {
    assert [m, m][1..] == [m] && [m][1..] == [] && Numbers([]) == {};
    assert Fresh({}, [m]) == [m];
    assert Fresh({}, [m, m]) == [m] + [m];
    assert ([m] + [m])[0].number == ([m] + [m])[1].number;
  }

  // Catching up ----------------------------------------------------------------------

  lemma LastIsHighest(messages: seq<Message>, h: int)
    requires Ascending(messages) && messages != []
    ensures Highest(messages, h) <==> h == messages[|messages| - 1].number
  {
  }

  /** What the server answers: the whole log, or the part above the watermark. */
  function Answer(log: seq<Message>, since: Option<int>): seq<Message> {
    if log == [] then []
    else (if since.Some? && log[0].number <= since.value then [] else [log[0]]) + Answer(log[1..], since)
  }

  lemma {:induction false} AnswerMessages(log: seq<Message>, since: Option<int>)
    ensures forall m :: m in Answer(log, since) <==> m in log && (since.Some? ==> m.number > since.value)
    ensures Distinct(log) ==> Distinct(Answer(log, since))
  {
    if log == [] {
    } else {
      AnswerMessages(log[1..], since);
      assert log == [log[0]] + log[1..];
      if Distinct(log) {
        assert Distinct(log[1..]);
        assert forall m <- log[1..] :: m.number != log[0].number;
      }
    }
  }

  /** A full backfill completes any part of the log. */
  lemma FullBackfillCompletes(part: seq<Message>, log: seq<Message>)
    requires Ascending(log) && Ascending(part) && forall m <- part :: m in log
    ensures Merge(part, Answer(log, None)) == log
  {
    Backfill(part, log, None);
    AscendingIsUnique(Merge(part, Answer(log, None)), log);
  }

  lemma Backfill(part: seq<Message>, log: seq<Message>, since: Option<int>)
    requires Ascending(log) && Ascending(part) && forall m <- part :: m in log
    ensures Ascending(Merge(part, Answer(log, since)))
    ensures forall m ::
      m in Merge(part, Answer(log, since))
      <==> m in part || (m in log && (since.Some? ==> m.number > since.value))
  {
    var answer := Answer(log, since);
    AnswerMessages(log, since);
    MergeShows(part, answer);
    FreshDistinct(Numbers(part), answer);
    MergeAscendingIff(part, answer);
    forall m | m in answer && m.number in Numbers(part)
      ensures m in part
    {
      var x :| x in part && x.number == m.number;
      assert x in log && m in log;
    }
  }

  /** Asking only for what lies above the highest number completes a transcript
      exactly when it has no hole below that number. */
  lemma TailCompletesIff(part: seq<Message>, log: seq<Message>, h: int)
    requires Ascending(log) && Ascending(part) && forall m <- part :: m in log
    requires Highest(part, h)
    ensures
      Merge(part, Answer(log, Some(h))) == log
      <==> forall m <- log :: m.number <= h ==> m in part
  {
    var merged := Merge(part, Answer(log, Some(h)));
    Backfill(part, log, Some(h));
    if forall m <- log :: m.number <= h ==> m in part {
      AscendingIsUnique(merged, log);
    }
  }
}
