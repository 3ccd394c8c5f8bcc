/** What filtering a list leaves: the wanted elements, repeats included, in the order in
    which they stood. */
module Selection {

  ghost predicate Ascending(index: seq<int>) {
    forall j, k :: 0 <= j < k < |index| ==> index[j] < index[k]
  }

  /** The k-th element of r stood at index[k] of s, and is wanted. */
  ghost predicate Drawn<T(!new)>(s: seq<T>, wanted: T -> bool, r: seq<T>, index: seq<int>) {
    && |index| == |r|
    && forall k :: 0 <= k < |r| ==> 0 <= index[k] < |s| && r[k] == s[index[k]] && wanted(r[k])
  }

  /** Nothing wanted is missing. */
  ghost predicate AllDrawn<T(!new)>(s: seq<T>, wanted: T -> bool, index: seq<int>) {
    forall j :: 0 <= j < |s| && wanted(s[j]) ==> j in index
  }

  ghost predicate SelectedAt<T(!new)>(s: seq<T>, wanted: T -> bool, r: seq<T>, index: seq<int>) {
    Ascending(index) && Drawn(s, wanted, r, index) && AllDrawn(s, wanted, index)
  }

  ghost predicate Selected<T(!new)>(s: seq<T>, wanted: T -> bool, r: seq<T>) {
    exists index :: SelectedAt(s, wanted, r, index)
  }

  lemma NothingSelected<T(!new)>(s: seq<T>, wanted: T -> bool)
    requires s == []
    ensures Selected(s, wanted, [])
  {
    assert SelectedAt(s, wanted, [], []);
  }

  lemma DrawnSnoc<T(!new)>(s: seq<T>, wanted: T -> bool, r: seq<T>, index: seq<int>, last: T)
    requires Drawn(s, wanted, r, index)
    ensures Drawn(s + [last], wanted, r, index)
    ensures wanted(last) ==> Drawn(s + [last], wanted, r + [last], index + [|s|])
  {
    forall k | 0 <= k < |r|
      ensures 0 <= index[k] < |s + [last]| && r[k] == (s + [last])[index[k]]
    {
    }
  }

  lemma AscendingSnoc(index: seq<int>, n: int)
    requires Ascending(index) && forall k :: 0 <= k < |index| ==> index[k] < n
    ensures Ascending(index + [n])
  {
  }

  lemma AllDrawnSnoc<T(!new)>(s: seq<T>, wanted: T -> bool, index: seq<int>, next: seq<int>, last: T)
    requires AllDrawn(s, wanted, index) && (forall j <- index :: j in next) && (wanted(last) ==> |s| in next)
    ensures AllDrawn(s + [last], wanted, next)
  {
    forall j | 0 <= j < |s + [last]| && wanted((s + [last])[j])
      ensures j in next
    {
      if j < |s| {
        assert (s + [last])[j] == s[j];
      }
    }
  }

  lemma WantedSnoc<T(!new)>(s: seq<T>, wanted: T -> bool, r: seq<T>, index: seq<int>, last: T)
    requires SelectedAt(s, wanted, r, index) && wanted(last)
    ensures SelectedAt(s + [last], wanted, r + [last], index + [|s|])
  {
    var next := index + [|s|];
    assert next[|index|] == |s|;
    DrawnSnoc(s, wanted, r, index, last);
    AscendingSnoc(index, |s|);
    AllDrawnSnoc(s, wanted, index, next, last);
  }

  lemma UnwantedSnoc<T(!new)>(s: seq<T>, wanted: T -> bool, r: seq<T>, index: seq<int>, last: T)
    requires SelectedAt(s, wanted, r, index) && !wanted(last)
    ensures SelectedAt(s + [last], wanted, r, index)
  {
    DrawnSnoc(s, wanted, r, index, last);
    AllDrawnSnoc(s, wanted, index, index, last);
  }

  lemma SelectedSnoc<T(!new)>(s: seq<T>, wanted: T -> bool, r: seq<T>, last: T)
    requires Selected(s, wanted, r)
    ensures Selected(s + [last], wanted, if wanted(last) then r + [last] else r)
  {
    var index :| SelectedAt(s, wanted, r, index);
    if wanted(last) {
      WantedSnoc(s, wanted, r, index, last);
    } else {
      UnwantedSnoc(s, wanted, r, index, last);
    }
  }

  function Moved(index: seq<int>): seq<int> {
    seq(|index|, k requires 0 <= k < |index| => index[k] + 1)
  }

  lemma MovedHas(index: seq<int>)
    ensures forall j <- index :: j + 1 in Moved(index)
  {
    forall j | j in index
      ensures j + 1 in Moved(index)
    {
      var k :| 0 <= k < |index| && index[k] == j;
      assert Moved(index)[k] == j + 1;
    }
  }

  lemma ConsHas(index: seq<int>)
    ensures 0 in [0] + Moved(index) && forall j <- index :: j + 1 in [0] + Moved(index)
  {
    MovedHas(index);
    var next := [0] + Moved(index);
    assert next[0] == 0;
    forall j | j in Moved(index)
      ensures j in next
    {
    }
  }

  lemma AllDrawnCons<T(!new)>(first: T, s: seq<T>, wanted: T -> bool, index: seq<int>, next: seq<int>)
    requires AllDrawn(s, wanted, index) && (forall j <- index :: j + 1 in next) && (wanted(first) ==> 0 in next)
    ensures AllDrawn([first] + s, wanted, next)
  {
    forall j | 0 <= j < |[first] + s| && wanted(([first] + s)[j])
      ensures j in next
    {
      if j > 0 {
        assert ([first] + s)[j] == s[j - 1];
      }
    }
  }

  lemma AllDrawnWanted<T(!new)>(first: T, s: seq<T>, wanted: T -> bool, index: seq<int>)
    requires AllDrawn(s, wanted, index)
    ensures AllDrawn([first] + s, wanted, [0] + Moved(index))
  {
    ConsHas(index);
    AllDrawnCons(first, s, wanted, index, [0] + Moved(index));
  }

  lemma AllDrawnUnwanted<T(!new)>(first: T, s: seq<T>, wanted: T -> bool, index: seq<int>)
    requires AllDrawn(s, wanted, index) && !wanted(first)
    ensures AllDrawn([first] + s, wanted, Moved(index))
  {
    MovedHas(index);
    AllDrawnCons(first, s, wanted, index, Moved(index));
  }

  lemma DrawnMoved<T(!new)>(first: T, s: seq<T>, wanted: T -> bool, r: seq<T>, index: seq<int>)
    requires Drawn(s, wanted, r, index)
    ensures Drawn([first] + s, wanted, r, Moved(index))
  {
    forall k | 0 <= k < |r|
      ensures 0 <= Moved(index)[k] < |[first] + s| && r[k] == ([first] + s)[Moved(index)[k]]
    {
    }
  }

  lemma DrawnCons<T(!new)>(first: T, s: seq<T>, wanted: T -> bool, r: seq<T>, index: seq<int>)
    requires Drawn(s, wanted, r, index) && wanted(first)
    ensures Drawn([first] + s, wanted, [first] + r, [0] + Moved(index))
  {
    var next := [0] + Moved(index);
    forall k | 0 <= k < |[first] + r|
      ensures 0 <= next[k] < |[first] + s| && ([first] + r)[k] == ([first] + s)[next[k]] && wanted(([first] + r)[k])
    {
      if k > 0 {
        assert next[k] == index[k - 1] + 1 && ([first] + r)[k] == r[k - 1];
      }
    }
  }

  lemma AscendingMoved(index: seq<int>)
    requires Ascending(index)
    ensures Ascending(Moved(index))
  {
  }

  lemma AscendingCons(index: seq<int>)
    requires Ascending(index) && forall k :: 0 <= k < |index| ==> 0 <= index[k]
    ensures Ascending([0] + Moved(index))
  {
    var next := [0] + Moved(index);
    forall j, k | 0 <= j < k < |next|
      ensures next[j] < next[k]
    {
      assert next[k] == index[k - 1] + 1;
    }
  }

  lemma WantedCons<T(!new)>(first: T, s: seq<T>, wanted: T -> bool, r: seq<T>, index: seq<int>)
    requires SelectedAt(s, wanted, r, index) && wanted(first)
    ensures SelectedAt([first] + s, wanted, [first] + r, [0] + Moved(index))
  {
    DrawnCons(first, s, wanted, r, index);
    AscendingCons(index);
    AllDrawnWanted(first, s, wanted, index);
  }

  lemma UnwantedCons<T(!new)>(first: T, s: seq<T>, wanted: T -> bool, r: seq<T>, index: seq<int>)
    requires SelectedAt(s, wanted, r, index) && !wanted(first)
    ensures SelectedAt([first] + s, wanted, r, Moved(index))
  {
    DrawnMoved(first, s, wanted, r, index);
    AscendingMoved(index);
    AllDrawnUnwanted(first, s, wanted, index);
  }

  lemma SelectedCons<T(!new)>(first: T, s: seq<T>, wanted: T -> bool, r: seq<T>)
    requires Selected(s, wanted, r)
    ensures Selected([first] + s, wanted, if wanted(first) then [first] + r else r)
  {
    var index :| SelectedAt(s, wanted, r, index);
    if wanted(first) {
      WantedCons(first, s, wanted, r, index);
    } else {
      UnwantedCons(first, s, wanted, r, index);
    }
  }

  /** One step of a filter from the front. */
  lemma SelectedHead<T(!new)>(s: seq<T>, wanted: T -> bool, rest: seq<T>)
    requires s != [] && Selected(s[1..], wanted, rest)
    ensures Selected(s, wanted, if wanted(s[0]) then [s[0]] + rest else rest)
  {
    SelectedCons(s[0], s[1..], wanted, rest);
    assert [s[0]] + s[1..] == s;
  }

  /** One step of a filter from the back. */
  lemma SelectedLast<T(!new)>(s: seq<T>, wanted: T -> bool, rest: seq<T>)
    requires s != [] && Selected(s[..|s| - 1], wanted, rest)
    ensures Selected(s, wanted, if wanted(s[|s| - 1]) then rest + [s[|s| - 1]] else rest)
  {
    SelectedSnoc(s[..|s| - 1], wanted, rest, s[|s| - 1]);
    assert s[..|s| - 1] + [s[|s| - 1]] == s;
  }

  /** What is left in the end is exactly what is wanted. */
  lemma SelectedMembers<T(!new)>(s: seq<T>, wanted: T -> bool, r: seq<T>)
    requires Selected(s, wanted, r)
    ensures forall x :: x in r <==> x in s && wanted(x)
  {
    var index :| SelectedAt(s, wanted, r, index);
    forall x | x in s && wanted(x)
      ensures x in r
    {
      var j :| 0 <= j < |s| && s[j] == x;
      assert j in index;
      var k :| 0 <= k < |index| && index[k] == j;
      assert r[k] == x;
    }
  }
}
