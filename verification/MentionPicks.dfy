/** Typing and picking mentions in the composer, in any order
    (apps/mobile/lib/use-mention-input.ts, mention-serialize.ts). Each pick appends its
    marker to the end of a list, wherever in the text it was made. */
module MentionPicks {
  import opened Whitespace
  import opened Mentions

  // One pick --------------------------------------------------------------------------

  /** Where piece j starts. */
  function Offset(pieces: seq<string>, ms: seq<Marker>, j: nat): nat
    requires j <= |ms| < |pieces|
  {
    if j == 0 then 0 else |pieces[0]| + |Inserted(ms[0])| + Offset(pieces[1..], ms[1..], j - 1)
  }

  /** Piece j replaced by two. */
  function Split(pieces: seq<string>, j: nat, a: string, b: string): seq<string>
    requires j < |pieces|
  {
    pieces[..j] + [a, b] + pieces[j + 1..]
  }

  /** A further mention between the first j and the others. */
  function Placed(ms: seq<Marker>, j: nat, m: Marker): seq<Marker>
    requires j <= |ms|
  {
    ms[..j] + [m] + ms[j..]
  }

  lemma SplitPlacedCons(pieces: seq<string>, ms: seq<Marker>, j: nat, a: string, b: string, m: Marker)
    requires |pieces| == |ms| + 1 && 0 < j <= |ms|
    ensures Split(pieces, j, a, b) == [pieces[0]] + Split(pieces[1..], j - 1, a, b)
    ensures Placed(ms, j, m) == [ms[0]] + Placed(ms[1..], j - 1, m)
  {
    Spliced(pieces, j, j + 1, [a, b]);
    Spliced(ms, j, j, [m]);
  }

  /** Picking for a query inside piece j splits the piece around the mention. */
  lemma {:induction false} PickSplitsPiece(
      pieces: seq<string>, ms: seq<Marker>, j: nat, a: string, query: string, b: string, m: Marker)
    requires |pieces| == |ms| + 1 && j <= |ms| && pieces[j] == a + "@" + query + b
    ensures
      InsertMention(Compose(pieces, ms), Offset(pieces, ms, j) + |a|, |query|, m).0
      == Compose(Split(pieces, j, a, b), Placed(ms, j, m))
  {
    if j == 0 {
      SplitFirst(pieces, ms, a, query, b, m);
    } else {
      var start := Offset(pieces[1..], ms[1..], j - 1) + |a|;
      PickSplitsPiece(pieces[1..], ms[1..], j - 1, a, query, b, m);
      PieceFits(pieces[1..], ms[1..], j - 1);
      PickLater(pieces, ms, start, |query|, m, Split(pieces[1..], j - 1, a, b), Placed(ms[1..], j - 1, m));
      SplitPlacedCons(pieces, ms, j, a, b, m);
    }
  }

  lemma PickLater(pieces: seq<string>, ms: seq<Marker>, start: nat, queryLength: nat, m: Marker,
                  split: seq<string>, marks: seq<Marker>)
    requires |pieces| == |ms| + 1 && ms != [] && |split| == |marks| + 1
    requires start + 1 + queryLength <= |Compose(pieces[1..], ms[1..])|
    requires InsertMention(Compose(pieces[1..], ms[1..]), start, queryLength, m).0 == Compose(split, marks)
    ensures
      InsertMention(Compose(pieces, ms), |pieces[0]| + |Inserted(ms[0])| + start, queryLength, m).0
      == Compose([pieces[0]] + split, [ms[0]] + marks)
  {
    InsertBehind(pieces[0] + Inserted(ms[0]), Compose(pieces[1..], ms[1..]), start, queryLength, m);
    ComposeCons(pieces[0], split, ms[0], marks);
  }

  lemma Spliced<T>(s: seq<T>, to: nat, from: nat, middle: seq<T>)
    requires 0 < to <= from <= |s|
    ensures s[..to] + middle + s[from..] == [s[0]] + (s[1..][..to - 1] + middle + s[1..][from - 1..])
  {
    assert s[1..][from - 1..] == s[from..];
    assert [s[0]] + s[1..][..to - 1] == s[..to];
  }

  lemma ComposeCons(piece: string, pieces: seq<string>, m: Marker, ms: seq<Marker>)
    requires |pieces| == |ms| + 1
    ensures Compose([piece] + pieces, [m] + ms) == piece + Inserted(m) + Compose(pieces, ms)
  {
    assert ([piece] + pieces)[1..] == pieces && ([m] + ms)[1..] == ms;
  }

  /** What follows the first piece. */
  function Behind(pieces: seq<string>, ms: seq<Marker>): string
    requires |pieces| == |ms| + 1
  {
    if ms == [] then "" else Inserted(ms[0]) + Compose(pieces[1..], ms[1..])
  }

  lemma ComposeHead(pieces: seq<string>, ms: seq<Marker>, head: string)
    requires |pieces| == |ms| + 1
    ensures Compose(pieces, ms) == pieces[0] + Behind(pieces, ms)
    ensures Compose([head] + pieces[1..], ms) == head + Behind(pieces, ms)
  {
    assert ([head] + pieces[1..])[1..] == pieces[1..];
  }

  lemma InsertAtQuery(a: string, query: string, rest: string, m: Marker)
    ensures InsertMention(a + "@" + query + rest, |a|, |query|, m).0 == a + Inserted(m) + rest
  {
    var text := a + "@" + query + rest;
    assert text[..|a|] == a && text[|a| + 1 + |query|..] == rest;
  }

  lemma SplitFirst(pieces: seq<string>, ms: seq<Marker>, a: string, query: string, b: string, m: Marker)
    requires |pieces| == |ms| + 1 && pieces[0] == a + "@" + query + b
    ensures
      InsertMention(Compose(pieces, ms), |a|, |query|, m).0 == Compose(Split(pieces, 0, a, b), Placed(ms, 0, m))
  {
    assert Split(pieces, 0, a, b) == [a, b] + pieces[1..] && Placed(ms, 0, m) == [m] + ms;
    ComposeHead(pieces, ms, b);
    Assoc(a + "@" + query, b, Behind(pieces, ms));
    InsertAtQuery(a, query, b + Behind(pieces, ms), m);
    ComposeCons(a, [b] + pieces[1..], m, ms);
    Assoc([a], [b], pieces[1..]);
    assert [a] + [b] == [a, b];
  }

  lemma {:induction false} PieceFits(pieces: seq<string>, ms: seq<Marker>, j: nat)
    requires |pieces| == |ms| + 1 && j <= |ms|
    ensures Offset(pieces, ms, j) + |pieces[j]| <= |Compose(pieces, ms)|
  {
    if j == 0 {
    } else {
      PieceFits(pieces[1..], ms[1..], j - 1);
    }
  }

  lemma InsertBehind(head: string, rest: string, start: nat, queryLength: nat, m: Marker)
    requires start + 1 + queryLength <= |rest|
    ensures
      InsertMention(head + rest, |head| + start, queryLength, m).0
      == head + InsertMention(rest, start, queryLength, m).0
  {
    assert (head + rest)[..|head| + start] == head + rest[..start];
    assert (head + rest)[|head| + start + 1 + queryLength..] == rest[start + 1 + queryLength..];
  }

  lemma {:induction false} RotatedIff(names: seq<string>, name: string)
    ensures [name] + names == names + [name] <==> forall k :: 0 <= k < |names| ==> names[k] == name
  {
    if names != [] && [name] + names == names + [name] {
      assert ([name] + names)[0] == (names + [name])[0];
      assert names[0] == name;
      assert ([name] + names)[1..] == names && (names + [name])[1..] == names[1..] + [name];
      assert [name] + names[1..] == names;
      RotatedIff(names[1..], name);
    }
  }

  // Typing -----------------------------------------------------------------------------

  /** A stretch of the text replaced, as typing does. */
  function Replaced(text: string, start: nat, length: nat, with: string): string
    requires start + length <= |text|
  {
    text[..start] + with + text[start + length..]
  }

  lemma ReplacedBehind(head: string, rest: string, start: nat, length: nat, with: string)
    requires start + length <= |rest|
    ensures Replaced(head + rest, |head| + start, length, with) == head + Replaced(rest, start, length, with)
  {
    assert (head + rest)[..|head| + start] == head + rest[..start];
    assert (head + rest)[|head| + start + length..] == rest[start + length..];
  }

  lemma TypingFirst(pieces: seq<string>, ms: seq<Marker>, piece: string)
    requires |pieces| == |ms| + 1 && |pieces[0]| <= |Compose(pieces, ms)|
    ensures Replaced(Compose(pieces, ms), 0, |pieces[0]|, piece) == Compose(pieces[0 := piece], ms)
  {
    ComposeHead(pieces, ms, piece);
    assert pieces[0 := piece] == [piece] + pieces[1..];
    assert (pieces[0] + Behind(pieces, ms))[|pieces[0]|..] == Behind(pieces, ms);
  }

  lemma TypingLater(pieces: seq<string>, ms: seq<Marker>, start: nat, length: nat, piece: string, typed: seq<string>)
    requires |pieces| == |ms| + 1 == |typed| && ms != [] && start + length <= |Compose(pieces[1..], ms[1..])|
    requires typed[0] == pieces[0]
    requires Replaced(Compose(pieces[1..], ms[1..]), start, length, piece) == Compose(typed[1..], ms[1..])
    ensures |pieces[0]| + |Inserted(ms[0])| + start + length <= |Compose(pieces, ms)|
    ensures
      Replaced(Compose(pieces, ms), |pieces[0]| + |Inserted(ms[0])| + start, length, piece) == Compose(typed, ms)
  {
    ReplacedBehind(pieces[0] + Inserted(ms[0]), Compose(pieces[1..], ms[1..]), start, length, piece);
  }

  /** Typing inside piece j changes that piece and no mention. */
  lemma {:induction false} TypingChangesPiece(pieces: seq<string>, ms: seq<Marker>, j: nat, piece: string)
    requires |pieces| == |ms| + 1 && j <= |ms|
    ensures Offset(pieces, ms, j) + |pieces[j]| <= |Compose(pieces, ms)|
    ensures
      Replaced(Compose(pieces, ms), Offset(pieces, ms, j), |pieces[j]|, piece) == Compose(pieces[j := piece], ms)
  {
    PieceFits(pieces, ms, j);
    if j == 0 {
      TypingFirst(pieces, ms, piece);
    } else {
      TypingChangesPiece(pieces[1..], ms[1..], j - 1, piece);
      assert pieces[j := piece][1..] == pieces[1..][j - 1 := piece];
      TypingLater(pieces, ms, Offset(pieces[1..], ms[1..], j - 1), |pieces[j]|, piece, pieces[j := piece]);
    }
  }

  // Typing over a mention --------------------------------------------------------------

  /** Pieces j and j + 1, and what was between them, replaced by one piece. */
  function Joined(pieces: seq<string>, j: nat, piece: string): seq<string>
    requires j + 1 < |pieces|
  {
    pieces[..j] + [piece] + pieces[j + 2..]
  }

  /** The mentions without the j-th. */
  function Dropped(ms: seq<Marker>, j: nat): seq<Marker>
    requires j < |ms|
  {
    ms[..j] + ms[j + 1..]
  }

  /** The length of pieces j and j + 1 with the mention between. */
  function Span(pieces: seq<string>, ms: seq<Marker>, j: nat): nat
    requires |pieces| == |ms| + 1 && j < |ms|
  {
    |pieces[j]| + |Inserted(ms[j])| + |pieces[j + 1]|
  }

  lemma ReplacedHead(head: string, rest: string, with: string)
    ensures Replaced(head + rest, 0, |head|, with) == with + rest
  {
    assert (head + rest)[|head|..] == rest;
  }

  /** The first two pieces with the mention between, and the rest. */
  lemma ComposeTwo(pieces: seq<string>, ms: seq<Marker>)
    requires |pieces| == |ms| + 1 && ms != []
    ensures
      var head := pieces[0] + Inserted(ms[0]) + pieces[1];
      |head| == Span(pieces, ms, 0) && Compose(pieces, ms) == head + Behind(pieces[1..], ms[1..])
  {
    ComposeHead(pieces[1..], ms[1..], "");
    Assoc(pieces[0] + Inserted(ms[0]), pieces[1], Behind(pieces[1..], ms[1..]));
  }

  lemma ErasingFirst(pieces: seq<string>, ms: seq<Marker>, piece: string)
    requires |pieces| == |ms| + 1 && ms != []
    ensures Span(pieces, ms, 0) <= |Compose(pieces, ms)|
    ensures
      Replaced(Compose(pieces, ms), 0, Span(pieces, ms, 0), piece) == Compose(Joined(pieces, 0, piece), Dropped(ms, 0))
  {
    ComposeTwo(pieces, ms);
    ReplacedHead(pieces[0] + Inserted(ms[0]) + pieces[1], Behind(pieces[1..], ms[1..]), piece);
    ComposeHead(pieces[1..], ms[1..], piece);
    JoinedFirst(pieces, ms, piece);
  }

  lemma JoinedFirst(pieces: seq<string>, ms: seq<Marker>, piece: string)
    requires |pieces| == |ms| + 1 && ms != []
    ensures Joined(pieces, 0, piece) == [piece] + pieces[1..][1..] && Dropped(ms, 0) == ms[1..]
  {
  }

  lemma ErasingLater(pieces: seq<string>, ms: seq<Marker>, start: nat, length: nat, piece: string,
                     joined: seq<string>, marks: seq<Marker>)
    requires |pieces| == |ms| + 1 && ms != [] && |joined| == |marks| + 1
    requires start + length <= |Compose(pieces[1..], ms[1..])|
    requires Replaced(Compose(pieces[1..], ms[1..]), start, length, piece) == Compose(joined, marks)
    ensures |pieces[0]| + |Inserted(ms[0])| + start + length <= |Compose(pieces, ms)|
    ensures
      Replaced(Compose(pieces, ms), |pieces[0]| + |Inserted(ms[0])| + start, length, piece)
      == Compose([pieces[0]] + joined, [ms[0]] + marks)
  {
    ReplacedBehind(pieces[0] + Inserted(ms[0]), Compose(pieces[1..], ms[1..]), start, length, piece);
    ComposeCons(pieces[0], joined, ms[0], marks);
  }

  /** Mention j is erased from the text as a whole. */
  ghost predicate Erases(pieces: seq<string>, ms: seq<Marker>, j: nat, piece: string)
    requires |pieces| == |ms| + 1 && j < |ms|
  {
    var text, at, length := Compose(pieces, ms), Offset(pieces, ms, j), Span(pieces, ms, j);
    && at + length <= |text|
    && Replaced(text, at, length, piece) == Compose(Joined(pieces, j, piece), Dropped(ms, j))
  }

  lemma SpanTail(pieces: seq<string>, ms: seq<Marker>, j: nat)
    requires |pieces| == |ms| + 1 && 0 < j < |ms|
    ensures Span(pieces, ms, j) == Span(pieces[1..], ms[1..], j - 1)
    ensures Offset(pieces, ms, j) == |pieces[0]| + |Inserted(ms[0])| + Offset(pieces[1..], ms[1..], j - 1)
  {
    assert pieces[1..][j - 1] == pieces[j] && pieces[1..][j] == pieces[j + 1] && ms[1..][j - 1] == ms[j];
  }

  lemma ErasingStep(pieces: seq<string>, ms: seq<Marker>, j: nat, piece: string)
    requires |pieces| == |ms| + 1 && 0 < j < |ms| && Erases(pieces[1..], ms[1..], j - 1, piece)
    ensures Erases(pieces, ms, j, piece)
  {
    var joined, marks := Joined(pieces[1..], j - 1, piece), Dropped(ms[1..], j - 1);
    JoinedDroppedCons(pieces, ms, j, piece);
    SpanTail(pieces, ms, j);
    ErasingLater(pieces, ms, Offset(pieces[1..], ms[1..], j - 1), Span(pieces, ms, j), piece, joined, marks);
    ErasedBy(pieces, ms, j, piece, [pieces[0]] + joined, [ms[0]] + marks);
  }

  lemma ErasedBy(pieces: seq<string>, ms: seq<Marker>, j: nat, piece: string,
                 joined: seq<string>, marks: seq<Marker>)
    requires |pieces| == |ms| + 1 && j < |ms| && |joined| == |marks| + 1
    requires Offset(pieces, ms, j) + Span(pieces, ms, j) <= |Compose(pieces, ms)|
    requires Joined(pieces, j, piece) == joined && Dropped(ms, j) == marks
    requires Replaced(Compose(pieces, ms), Offset(pieces, ms, j), Span(pieces, ms, j), piece) == Compose(joined, marks)
    ensures Erases(pieces, ms, j, piece)
  {
  }

  /** Typing over a mention, and over what stands around it, joins its two pieces. */
  lemma {:induction false} ErasingJoins(pieces: seq<string>, ms: seq<Marker>, j: nat, piece: string)
    requires |pieces| == |ms| + 1 && j < |ms|
    ensures Erases(pieces, ms, j, piece)
  {
    if j == 0 {
      ErasingFirst(pieces, ms, piece);
    } else {
      ErasingJoins(pieces[1..], ms[1..], j - 1, piece);
      ErasingStep(pieces, ms, j, piece);
    }
  }

  lemma JoinedDroppedCons(pieces: seq<string>, ms: seq<Marker>, j: nat, piece: string)
    requires |pieces| == |ms| + 1 && 0 < j < |ms|
    ensures Joined(pieces, j, piece) == [pieces[0]] + Joined(pieces[1..], j - 1, piece)
    ensures Dropped(ms, j) == [ms[0]] + Dropped(ms[1..], j - 1)
  {
    Spliced(pieces, j, j + 2, [piece]);
    Spliced(ms, j, j + 1, []);
  }

  // Runs of typing and picking ---------------------------------------------------------

  /** The plain pieces, the mentions between them, and the markers in picking order. */
  datatype Draft = Draft(pieces: seq<string>, placed: seq<Marker>, picked: seq<Marker>)

  const EMPTY_DRAFT := Draft([""], [], [])

  /** Piece j is typed over, or mention j is together with the pieces around it, or in
      piece j, a + "@" + query + b, the query is completed to mention m. */
  datatype Input =
    | Typed(j: nat, piece: string)
    | Erased(j: nat, piece: string)
    | Picked(j: nat, a: string, query: string, b: string, m: Marker)

  predicate Fits(d: Draft, p: Input) {
    && |d.pieces| == |d.placed| + 1 && p.j < |d.pieces|
    && match p
       case Typed(_, piece) => NoSentinel(piece)
       case Erased(j, piece) => j < |d.placed| && NoSentinel(piece)
       case Picked(j, a, query, b, _) => d.pieces[j] == a + "@" + query + b
  }

  function Next(d: Draft, p: Input): Draft
    requires Fits(d, p)
  {
    match p
    case Typed(j, piece) => d.(pieces := d.pieces[j := piece])
    case Erased(j, piece) => Draft(Joined(d.pieces, j, piece), Dropped(d.placed, j), d.picked)
    case Picked(j, a, _, b, m) => Draft(Split(d.pieces, j, a, b), Placed(d.placed, j, m), d.picked + [m])
  }

  predicate Possible(d: Draft, run: seq<Input>)
    decreases |run|
  {
    run == [] || (Fits(d, run[0]) && Possible(Next(d, run[0]), run[1..]))
  }

  function After(d: Draft, run: seq<Input>): Draft
    requires Possible(d, run)
    decreases |run|
  {
    if run == [] then d else After(Next(d, run[0]), run[1..])
  }

  /** The text field after one input; text that is not the draft's stays. */
  function NextText(text: string, d: Draft, p: Input): string
    requires Fits(d, p)
  {
    var at := Offset(d.pieces, d.placed, p.j);
    match p
    case Typed(j, piece) => if at + |d.pieces[j]| <= |text| then Replaced(text, at, |d.pieces[j]|, piece) else text
    case Erased(j, piece) =>
      var length := Span(d.pieces, d.placed, j);
      if at + length <= |text| then Replaced(text, at, length, piece) else text
    case Picked(_, a, query, _, m) => InsertMention(text, at + |a|, |query|, m).0
  }

  /** The text field after the run. */
  function TextAfter(text: string, d: Draft, run: seq<Input>): string
    requires Possible(d, run)
    decreases |run|
  {
    if run == [] then text else TextAfter(NextText(text, d, run[0]), Next(d, run[0]), run[1..])
  }

  /** Pieces free of sentinels, and the placed mentions are picked ones. */
  ghost predicate GoodDraft(d: Draft) {
    && |d.pieces| == |d.placed| + 1 && PlainPieces(d.pieces)
    && multiset(d.placed) <= multiset(d.picked)
  }

  lemma PlainParts(a: string, query: string, b: string)
    requires NoSentinel(a + "@" + query + b)
    ensures NoSentinel(a) && NoSentinel(b)
  {
    var whole := a + "@" + query + b;
    assert forall k :: 0 <= k < |a| ==> whole[k] == a[k];
    assert forall k :: 0 <= k < |b| ==> whole[|a| + 1 + |query| + k] == b[k];
  }

  lemma ErasedStaysGood(d: Draft, j: nat, piece: string)
    requires GoodDraft(d) && j < |d.placed| && NoSentinel(piece)
    ensures GoodDraft(Draft(Joined(d.pieces, j, piece), Dropped(d.placed, j), d.picked))
  {
    assert d.placed == d.placed[..j] + [d.placed[j]] + d.placed[j + 1..];
  }

  lemma PickedStaysGood(d: Draft, j: nat, a: string, query: string, b: string, m: Marker)
    requires GoodDraft(d) && j < |d.pieces| && d.pieces[j] == a + "@" + query + b
    ensures GoodDraft(Draft(Split(d.pieces, j, a, b), Placed(d.placed, j, m), d.picked + [m]))
  {
    PlainParts(a, query, b);
    assert d.placed == d.placed[..j] + d.placed[j..];
  }

  lemma NextStaysGood(d: Draft, p: Input)
    requires GoodDraft(d) && Fits(d, p)
    ensures GoodDraft(Next(d, p))
  {
    match p
    case Typed(_, _) =>
    case Erased(j, piece) => ErasedStaysGood(d, j, piece);
    case Picked(j, a, query, b, m) => PickedStaysGood(d, j, a, query, b, m);
  }

  /** The next text is composed of the next draft. */
  ghost predicate Follows(d: Draft, p: Input)
    requires GoodDraft(d) && Fits(d, p)
  {
    var next := Next(d, p);
    |next.pieces| == |next.placed| + 1
    && NextText(Compose(d.pieces, d.placed), d, p) == Compose(next.pieces, next.placed)
  }

  lemma TypedFollows(d: Draft, p: Input)
    requires GoodDraft(d) && Fits(d, p) && p.Typed?
    ensures Follows(d, p)
  {
    TypingChangesPiece(d.pieces, d.placed, p.j, p.piece);
  }

  lemma ErasedFollows(d: Draft, p: Input)
    requires GoodDraft(d) && Fits(d, p) && p.Erased?
    ensures Follows(d, p)
  {
    ErasingJoins(d.pieces, d.placed, p.j, p.piece);
  }

  lemma PickedFollows(d: Draft, p: Input)
    requires GoodDraft(d) && Fits(d, p) && p.Picked?
    ensures Follows(d, p)
  {
    PickSplitsPiece(d.pieces, d.placed, p.j, p.a, p.query, p.b, p.m);
  }

  lemma NextComposes(d: Draft, p: Input)
    requires GoodDraft(d) && Fits(d, p)
    ensures Follows(d, p)
  {
    match p
    case Typed(_, _) => TypedFollows(d, p);
    case Erased(_, _) => ErasedFollows(d, p);
    case Picked(_, _, _, _, _) => PickedFollows(d, p);
  }

  /** Whatever is typed and picked, wherever and in whatever order, the text is the
      pieces with the picked mentions between. */
  lemma {:induction false} PicksCompose(d: Draft, run: seq<Input>)
    requires GoodDraft(d) && Possible(d, run)
    ensures
      var end := After(d, run);
      GoodDraft(end) && TextAfter(Compose(d.pieces, d.placed), d, run) == Compose(end.pieces, end.placed)
    decreases |run|
  {
    if run == [] {
    } else {
      NextStaysGood(d, run[0]);
      NextComposes(d, run[0]);
      PicksCompose(Next(d, run[0]), run[1..]);
    }
  }

  // What is sent -----------------------------------------------------------------------

  /** With one-word names, the k-th mention in the text gets the k-th marker's link if
      the names come in the same order; otherwise all links are given up. */
  lemma AnyOrderServes(pieces: seq<string>, placed: seq<Marker>, ms: seq<Marker>)
    requires |pieces| == |placed| + 1 && PlainPieces(pieces) && OneWordNames(placed)
    ensures
      Serialized(Compose(pieces, placed), ms) ==
      if Names(placed) == Names(ms) then Weave(pieces, Links(ms)) else Strip(Compose(pieces, placed))
  {
    ComposedWords(pieces, placed, if |placed| == |ms| then Links(ms) else Links(placed));
    assert |Names(placed)| == |placed| && |Names(ms)| == |ms|;
  }

  predicate OneWordIds(ms: seq<Marker>) {
    forall k :: 0 <= k < |ms| ==> NoSpace(ms[k].id)
  }

  lemma LinkIsOneWord(m: Marker)
    requires NoSpace(m.name) && NoSpace(m.id)
    ensures NoSpace(Link(m))
  {
    assert NoSpace(KindName(m.kind)) && NoSpace("](mention://");
  }

  /** Space-free fills can be read back from between the pieces. */
  lemma {:induction false} WeaveTellsFills(pieces: seq<string>, a: seq<string>, b: seq<string>)
    requires |pieces| == |a| + 1 && |a| == |b|
    requires forall k :: 0 <= k < |a| ==> NoSpace(a[k]) && NoSpace(b[k])
    requires Weave(pieces, a) == Weave(pieces, b)
    ensures a == b
  {
    if a == [] {
    } else {
      var restA, restB := Weave(pieces[1..], a[1..]), Weave(pieces[1..], b[1..]);
      FirstFillTold(pieces[0], a[0], restA, b[0], restB);
      WeaveTellsFills(pieces[1..], a[1..], b[1..]);
      assert a == [a[0]] + a[1..] && b == [b[0]] + b[1..];
    }
  }

  lemma FirstFillTold(piece: string, a: string, restA: string, b: string, restB: string)
    requires NoSpace(a) && NoSpace(b) && piece + a + " " + restA == piece + b + " " + restB
    ensures a == b && restA == restB
  {
    Assoc(piece, a, " ");
    Assoc(piece, a + " ", restA);
    Assoc(a, " ", restA);
    Assoc(piece, b, " ");
    Assoc(piece, b + " ", restB);
    Assoc(b, " ", restB);
    SameTail(piece, a + (" " + restA), b + (" " + restB));
    WordEndsBySpace(a, " " + restA);
    WordEndsBySpace(b, " " + restB);
    SameTail(a, " " + restA, " " + restB);
    SameTail(" ", restA, restB);
  }

  /** Every mention gets its own link exactly when the markers' names and links come in
      the order of the text (or there is no mention). */
  lemma RightLinksIff(pieces: seq<string>, placed: seq<Marker>, ms: seq<Marker>)
    requires |pieces| == |placed| + 1 && PlainPieces(pieces) && OneWordNames(placed)
    requires OneWordIds(placed) && OneWordIds(ms)
    ensures
      Serialized(Compose(pieces, placed), ms) == Weave(pieces, Links(placed))
      <==> placed == [] || (Names(placed) == Names(ms) && Links(placed) == Links(ms))
  {
    AnyOrderServes(pieces, placed, ms);
    if placed == [] {
      StripPlain(pieces[0]);
      assert Links(placed) == [];
      assert Names(ms) == [] ==> Links(ms) == [];
    } else if Names(placed) != Names(ms) {
      LinksAreLonger(pieces, placed);
    } else if Serialized(Compose(pieces, placed), ms) == Weave(pieces, Links(placed)) {
      forall k | 0 <= k < |placed|
        ensures NoSpace(Links(placed)[k]) && NoSpace(Links(ms)[k])
      {
        assert Names(placed)[k] == placed[k].name && Names(ms)[k] == ms[k].name;
        LinkIsOneWord(placed[k]);
        LinkIsOneWord(ms[k]);
      }
      WeaveTellsFills(pieces, Links(placed), Links(ms));
    }
  }

  /** After any run of typing, between mentions and over them, and picking, of mentions
      with one-word names and ids, the message says what was meant exactly when names
      and links were picked in the order in which they stand, or no mention is left. */
  lemma PicksServeIff(run: seq<Input>)
    requires Possible(EMPTY_DRAFT, run)
    requires
      var end := After(EMPTY_DRAFT, run);
      OneWordNames(end.placed) && OneWordIds(end.placed) && OneWordIds(end.picked)
    ensures
      var end := After(EMPTY_DRAFT, run);
      && |end.pieces| == |end.placed| + 1
      && (Serialized(TextAfter("", EMPTY_DRAFT, run), end.picked) == Weave(end.pieces, Links(end.placed))
          <==> end.placed == [] || (Names(end.placed) == Names(end.picked) && Links(end.placed) == Links(end.picked)))
  {
    var end := After(EMPTY_DRAFT, run);
    PicksCompose(EMPTY_DRAFT, run);
    RightLinksIff(end.pieces, end.placed, end.picked);
  }

  /** Mentions picked and mentions standing differ in number exactly by those typed
      over, whose markers stay. */
  function ErasedIn(run: seq<Input>): nat {
    if run == [] then 0 else (if run[0].Erased? then 1 else 0) + ErasedIn(run[1..])
  }

  lemma {:induction false} ErasedAreMissing(d: Draft, run: seq<Input>)
    requires GoodDraft(d) && Possible(d, run)
    ensures |After(d, run).picked| - |After(d, run).placed| == |d.picked| - |d.placed| + ErasedIn(run)
    decreases |run|
  {
    if run == [] {
    } else {
      NextStaysGood(d, run[0]);
      ErasedAreMissing(Next(d, run[0]), run[1..]);
    }
  }

  /** So one mention typed over costs all the others their links. */
  lemma ErasingLosesLinks(run: seq<Input>)
    requires Possible(EMPTY_DRAFT, run) && ErasedIn(run) > 0 && OneWordNames(After(EMPTY_DRAFT, run).placed)
    ensures
      var text := TextAfter("", EMPTY_DRAFT, run);
      Serialized(text, After(EMPTY_DRAFT, run).picked) == Strip(text)
  {
    var end := After(EMPTY_DRAFT, run);
    PicksCompose(EMPTY_DRAFT, run);
    ErasedAreMissing(EMPTY_DRAFT, run);
    AnyOrderServes(end.pieces, end.placed, end.picked);
    assert |Names(end.placed)| == |end.placed| && |Names(end.picked)| == |end.picked|;
  }

  // One late pick ----------------------------------------------------------------------

  /** Moving x from before the last elements to behind them changes nothing exactly
      when they are all x. */
  lemma MovedIff(front: seq<string>, back: seq<string>, x: string)
    ensures front + ([x] + back) == front + (back + [x]) <==> forall k :: 0 <= k < |back| ==> back[k] == x
  {
    SameTail(front, [x] + back, back + [x]);
    RotatedIff(back, x);
  }

  lemma SplitNames(ms: seq<Marker>, j: nat, m: Marker)
    requires j <= |ms|
    ensures Names(Placed(ms, j, m)) == Names(ms[..j]) + ([m.name] + Names(ms[j..]))
    ensures Names(ms + [m]) == Names(ms[..j]) + (Names(ms[j..]) + [m.name])
  {
  }

  lemma SplitLinks(ms: seq<Marker>, j: nat, m: Marker)
    requires j <= |ms|
    ensures Links(Placed(ms, j, m)) == Links(ms[..j]) + ([Link(m)] + Links(ms[j..]))
    ensures Links(ms + [m]) == Links(ms[..j]) + (Links(ms[j..]) + [Link(m)])
  {
  }

  lemma PlacedNames(ms: seq<Marker>, j: nat, m: Marker)
    requires j <= |ms|
    ensures Names(Placed(ms, j, m)) == Names(ms + [m]) <==> forall k :: j <= k < |ms| ==> ms[k].name == m.name
  {
    SplitNames(ms, j, m);
    MovedIff(Names(ms[..j]), Names(ms[j..]), m.name);
    NamesBehind(ms, j, m);
  }

  lemma NamesBehind(ms: seq<Marker>, j: nat, m: Marker)
    requires j <= |ms|
    ensures
      (forall k :: 0 <= k < |Names(ms[j..])| ==> Names(ms[j..])[k] == m.name)
      <==> forall k :: j <= k < |ms| ==> ms[k].name == m.name
  {
    var behind := Names(ms[j..]);
    assert forall k :: j <= k < |ms| ==> behind[k - j] == ms[k].name;
  }

  lemma PlacedLinks(ms: seq<Marker>, j: nat, m: Marker)
    requires j <= |ms|
    ensures Links(Placed(ms, j, m)) == Links(ms + [m]) <==> forall k :: j <= k < |ms| ==> Link(ms[k]) == Link(m)
  {
    SplitLinks(ms, j, m);
    MovedIff(Links(ms[..j]), Links(ms[j..]), Link(m));
    LinksBehind(ms, j, m);
  }

  lemma LinksBehind(ms: seq<Marker>, j: nat, m: Marker)
    requires j <= |ms|
    ensures
      (forall k :: 0 <= k < |Links(ms[j..])| ==> Links(ms[j..])[k] == Link(m))
      <==> forall k :: j <= k < |ms| ==> Link(ms[k]) == Link(m)
  {
    var behind := Links(ms[j..]);
    assert forall k :: j <= k < |ms| ==> behind[k - j] == Link(ms[k]);
  }

  lemma PlacedOneWord(ms: seq<Marker>, j: nat, m: Marker)
    requires j <= |ms| && OneWordNames(ms) && NoSpace(m.name)
    ensures OneWordNames(Placed(ms, j, m))
    ensures OneWordIds(ms) && NoSpace(m.id) ==> OneWordIds(Placed(ms, j, m)) && OneWordIds(ms + [m])
  {
    var marks := Placed(ms, j, m);
    forall k | 0 <= k < |marks|
      ensures marks[k] == if k < j then ms[k] else if k == j then m else ms[k - 1]
    {
    }
  }

  /** After picks in text order, a further pick in piece j keeps the links exactly when
      every mention behind it has the same name; otherwise all links are given up. */
  lemma PickServesIff(pieces: seq<string>, ms: seq<Marker>, j: nat, m: Marker)
    requires |pieces| == |ms| + 2 && j <= |ms| && PlainPieces(pieces)
    requires OneWordNames(ms) && NoSpace(m.name)
    ensures
      var text := Compose(pieces, Placed(ms, j, m));
      Serialized(text, ms + [m]) ==
      if forall k :: j <= k < |ms| ==> ms[k].name == m.name then Weave(pieces, Links(ms + [m])) else Strip(text)
  {
    PlacedOneWord(ms, j, m);
    AnyOrderServes(pieces, Placed(ms, j, m), ms + [m]);
    PlacedNames(ms, j, m);
  }

  /** And every mention gets its own link exactly when those behind it have the same
      name and the same link. */
  lemma PickIsRightIff(pieces: seq<string>, ms: seq<Marker>, j: nat, m: Marker)
    requires |pieces| == |ms| + 2 && j <= |ms| && PlainPieces(pieces)
    requires OneWordNames(ms) && NoSpace(m.name) && OneWordIds(ms) && NoSpace(m.id)
    ensures
      Serialized(Compose(pieces, Placed(ms, j, m)), ms + [m]) == Weave(pieces, Links(Placed(ms, j, m)))
      <==> forall k :: j <= k < |ms| ==> ms[k].name == m.name && Link(ms[k]) == Link(m)
  {
    PlacedOneWord(ms, j, m);
    RightLinksIff(pieces, Placed(ms, j, m), ms + [m]);
    PlacedNames(ms, j, m);
    PlacedLinks(ms, j, m);
  }

  /** Two people of one name, the second picked in front of the first: both links are
      made, and each goes to the other, unless they are one. */
  lemma NamesakesAreSwapped(pieces: seq<string>, first: Marker, second: Marker)
    requires |pieces| == 3 && PlainPieces(pieces) && first.name == second.name && NoSpace(first.name)
    requires NoSpace(first.id) && NoSpace(second.id)
    ensures
      var text := Compose(pieces, [second, first]);
      && Serialized(text, [first, second]) == Weave(pieces, [Link(first), Link(second)])
      && (Serialized(text, [first, second]) == Weave(pieces, [Link(second), Link(first)])
          <==> Link(first) == Link(second))
  {
    assert Placed([first], 0, second) == [second, first] && [first] + [second] == [first, second];
    assert Links([first, second]) == [Link(first), Link(second)];
    assert Links([second, first]) == [Link(second), Link(first)];
    PickServesIff(pieces, [first], 0, second);
    PickIsRightIff(pieces, [first], 0, second);
  }
}
