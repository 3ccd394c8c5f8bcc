/** The mention serializer of the mobile composer
    (apps/mobile/lib/mention-serialize.ts, use-mention-input.ts). A picked mention
    is the invisible separator U+2063, an at sign, the name and a space. */
module Mentions {

  import opened IssueTypes
  import opened Whitespace

  const SENTINEL := '\U{2063}'

  predicate NoSentinel(s: string) {
    forall k :: 0 <= k < |s| ==> s[k] != SENTINEL
  }

  datatype MentionType = Member | Agent | Squad | Everyone | Issue

  datatype Marker = Marker(kind: MentionType, id: string, name: string)

  // The token being typed ------------------------------------------------------------

  datatype Token = Token(start: nat, query: string)

  /** An at sign after a space or at the very start, and no at sign or space
      between it and the cursor. */
  ghost predicate IsToken(text: string, cursor: int, start: nat) {
    && start < cursor <= |text| && text[start] == '@'
    && (start > 0 ==> IsSpace(text[start - 1]))
    && forall k :: start < k < cursor ==> text[k] != '@' && !IsSpace(text[k])
  }

  method TokenAtCursor(text: string, cursor: int) returns (t: Option<Token>)
    ensures t.Some? ==> IsToken(text, cursor, t.value.start) && t.value.query == text[t.value.start + 1..cursor]
    ensures t.None? ==> forall start: nat :: !IsToken(text, cursor, start)
  {
    if cursor < 1 || cursor > |text| {
      return None;
    }
    var i := cursor - 1;
    while i >= 0
      invariant -1 <= i < cursor
      invariant forall k :: i < k < cursor ==> text[k] != '@' && !IsSpace(text[k])
    {
      if text[i] == '@' {
        break;
      }
      if IsSpace(text[i]) {
        return None;
      }
      i := i - 1;
    }
    if i < 0 || text[i] != '@' {
      return None;
    }
    if i > 0 && text[i - 1] == SENTINEL {
      return None;
    }
    if i > 0 && !IsSpace(text[i - 1]) {
      return None;
    }
    return Some(Token(i, text[i + 1..cursor]));
  }

  // Picking a mention ----------------------------------------------------------------

  function Inserted(m: Marker): string {
    [SENTINEL] + "@" + m.name + " "
  }

  /** The text after the pick and the cursor behind the inserted space; slices clamp. */
  function InsertMention(text: string, start: nat, queryLength: nat, m: Marker): (string, nat) {
    var before := if start <= |text| then text[..start] else text;
    var after := if start + 1 + queryLength <= |text| then text[start + 1 + queryLength..] else "";
    (before + Inserted(m) + after, |before| + |Inserted(m)|)
  }

  /** Picking for a token replaces exactly that token. */
  lemma PickReplacesToken(text: string, cursor: nat, start: nat, m: Marker)
    requires IsToken(text, cursor, start)
    ensures InsertMention(text, start, cursor - start - 1, m).0 == text[..start] + Inserted(m) + text[cursor..]
  {
    assert start + 1 + (cursor - start - 1) == cursor;
  }

  /** No suggestion opens inside or right behind a picked mention: not behind its
      space, and nowhere behind its at sign unless the name has a space. */
  lemma NoTokenInMention(text: string, start: nat, queryLength: nat, m: Marker, cursor: nat, tokenStart: nat)
    requires
      var (picked, end) := InsertMention(text, start, queryLength, m);
      cursor == end || (NoSpace(m.name) && end - |Inserted(m)| + 2 <= cursor <= end)
    ensures !IsToken(InsertMention(text, start, queryLength, m).0, cursor, tokenStart)
  {
    var (picked, end) := InsertMention(text, start, queryLength, m);
    var at := end - |Inserted(m)| + 1;
    assert picked[at - 1] == SENTINEL && picked[at] == '@' && picked[end - 1] == ' ';
    if at < tokenStart < cursor < end {
      assert picked[tokenStart - 1] == Inserted(m)[tokenStart - at];
      assert forall k :: 0 <= k < |m.name| ==> Inserted(m)[2 + k] == m.name[k];
    }
  }

  // Serializing ----------------------------------------------------------------------

  function KindName(kind: MentionType): string {
    match kind
    case Member => "member"
    case Agent => "agent"
    case Squad => "squad"
    case Everyone => "all"
    case Issue => "issue"
  }

  function Link(m: Marker): string {
    "[" + (if m.kind.Issue? then m.name else "@" + m.name) + "](mention://" + KindName(m.kind) + "/" + m.id + ")"
  }

  function Names(markers: seq<Marker>): seq<string> {
    seq(|markers|, k requires 0 <= k < |markers| => markers[k].name)
  }

  function Links(markers: seq<Marker>): seq<string> {
    seq(|markers|, k requires 0 <= k < |markers| => Link(markers[k]))
  }

  /** Every sentinel erased. */
  function Strip(text: string): string {
    if text == "" then "" else (if text[0] == SENTINEL then "" else [text[0]]) + Strip(text[1..])
  }

  /** The longest prefix without a space. */
  function Word(s: string): (w: string)
    ensures w <= s
  {
    if s == "" || IsSpace(s[0]) then "" else [s[0]] + Word(s[1..])
  }

  predicate AtMention(text: string) {
    |text| > 1 && text[0] == SENTINEL && text[1] == '@'
  }

  /** The words behind the separators, in order. */
  function Words(text: string): seq<string>
    decreases |text|
  {
    if text == "" then []
    else if AtMention(text) then [Word(text[2..])] + Words(text[2 + |Word(text[2..])|..])
    else Words(text[1..])
  }

  /** The text with its mentions replaced by the given strings, one each and in
      order, and every other sentinel erased. */
  function Fill(text: string, fills: seq<string>): string
    decreases |text|
  {
    if text == "" then ""
    else if AtMention(text) then
      (if fills == [] then "" else fills[0])
      + Fill(text[2 + |Word(text[2..])|..], if fills == [] then [] else fills[1..])
    else (if text[0] == SENTINEL then "" else [text[0]]) + Fill(text[1..], fills)
  }

  /** All or nothing: every mention a link when the words are the markers' names in
      order, else every sentinel erased. */
  function Serialized(text: string, markers: seq<Marker>): string {
    if Words(text) == Names(markers) then Fill(text, Links(markers)) else Strip(text)
  }

  function IndexOfSentinel(text: string, from: nat): (k: nat)
    requires from <= |text|
    ensures from <= k <= |text| && NoSentinel(text[from..k])
    ensures k < |text| ==> text[k] == SENTINEL
    decreases |text| - from
  {
    if from == |text| || text[from] == SENTINEL then from else
      assert forall k :: from < k <= |text| ==> text[from..k] == [text[from]] + text[from + 1..k];
      IndexOfSentinel(text, from + 1)
  }

  lemma {:induction false} PlainPrefix(text: string, n: nat, fills: seq<string>)
    requires n <= |text| && NoSentinel(text[..n])
    ensures Words(text) == Words(text[n..])
    ensures Fill(text, fills) == text[..n] + Fill(text[n..], fills)
  {
    if n == 0 {
      assert text[n..] == text;
    } else {
      assert text[0] == text[..n][0];
      assert text[1..][..n - 1] == text[..n][1..];
      PlainPrefix(text[1..], n - 1, fills);
      assert text[1..][n - 1..] == text[n..];
      assert text[..n] == [text[0]] + text[1..][..n - 1];
    }
  }

  lemma {:induction false} StripPlain(text: string)
    requires NoSentinel(text)
    ensures Strip(text) == text && Words(text) == [] && Fill(text, []) == text
  {
    if text == "" {
    } else {
      StripPlain(text[1..]);
      assert text == [text[0]] + text[1..];
    }
  }

  lemma {:induction false} WordIs(s: string, n: nat)
    requires n <= |s| && NoSpace(s[..n]) && (n < |s| ==> IsSpace(s[n]))
    ensures Word(s) == s[..n]
  {
    if n == 0 {
    } else {
      assert s[0] == s[..n][0];
      assert s[1..][..n - 1] == s[..n][1..];
      WordIs(s[1..], n - 1);
      assert s[..n] == [s[0]] + s[1..][..n - 1];
    }
  }

  method WordEnd(text: string, from: nat) returns (end: nat)
    requires from <= |text|
    ensures from <= end <= |text| && text[from..end] == Word(text[from..])
  {
    end := from;
    while end < |text| && !IsSpace(text[end])
      invariant from <= end <= |text| && forall k :: from <= k < end ==> !IsSpace(text[k])
    {
      end := end + 1;
    }
    assert text[from..][..end - from] == text[from..end];
    WordIs(text[from..], end - from);
  }

  lemma Assoc<T>(a: seq<T>, b: seq<T>, c: seq<T>)
    ensures a + (b + c) == a + b + c
  {
  }

  lemma SameTail<T>(a: seq<T>, b: seq<T>, c: seq<T>)
    ensures a + b == a + c <==> b == c
  {
    assert (a + b)[|a|..] == b && (a + c)[|a|..] == c;
  }

  /** The scan has reached cursor, used up n names and links, and pushed out. */
  ghost predicate Reached(text: string, names: seq<string>, links: seq<string>, cursor: nat, n: nat, out: string)
    requires cursor <= |text| && n <= |names| == |links|
  {
    && Words(text) == names[..n] + Words(text[cursor..])
    && Fill(text, links) == out + Fill(text[cursor..], links[n..])
  }

  /** One advance of the scan: over the names from n to m, pushing piece. */
  lemma Advance(text: string, names: seq<string>, links: seq<string>, cursor: nat, n: nat, out: string,
                at: nat, m: nat, piece: string)
    requires cursor <= at <= |text| && n <= m <= |names| == |links| && Reached(text, names, links, cursor, n, out)
    requires Words(text[cursor..]) == names[n..m] + Words(text[at..])
    requires Fill(text[cursor..], links[n..]) == piece + Fill(text[at..], links[m..])
    ensures Reached(text, names, links, at, m, out + piece)
  {
    assert names[..m] == names[..n] + names[n..m];
    Assoc(names[..n], names[n..m], Words(text[at..]));
    Assoc(out, piece, Fill(text[at..], links[m..]));
  }

  lemma ReachPlain(text: string, names: seq<string>, links: seq<string>, cursor: nat, n: nat, out: string, at: nat)
    requires cursor <= at <= |text| && n <= |names| == |links| && Reached(text, names, links, cursor, n, out)
    requires NoSentinel(text[cursor..at])
    ensures Reached(text, names, links, at, n, out + text[cursor..at])
  {
    PlainBetween(text, cursor, at, links[n..]);
    assert names[n..n] == [];
    Advance(text, names, links, cursor, n, out, at, n, text[cursor..at]);
  }

  lemma PlainBetween(text: string, cursor: nat, at: nat, fills: seq<string>)
    requires cursor <= at <= |text| && NoSentinel(text[cursor..at])
    ensures Words(text[cursor..]) == Words(text[at..])
    ensures Fill(text[cursor..], fills) == text[cursor..at] + Fill(text[at..], fills)
  {
    assert text[cursor..][..at - cursor] == text[cursor..at];
    assert text[cursor..][at - cursor..] == text[at..];
    PlainPrefix(text[cursor..], at - cursor, fills);
  }

  predicate MentionAt(text: string, at: nat) {
    at + 1 < |text| && text[at] == SENTINEL && text[at + 1] == '@'
  }

  lemma ReachStray(text: string, names: seq<string>, links: seq<string>, cursor: nat, n: nat, out: string)
    requires cursor < |text| && n <= |names| == |links| && Reached(text, names, links, cursor, n, out)
    requires text[cursor] == SENTINEL && !MentionAt(text, cursor)
    ensures Reached(text, names, links, cursor + 1, n, out)
  {
    assert text[cursor..][1..] == text[cursor + 1..];
    assert !AtMention(text[cursor..]);
    assert names[n..n] == [] && out + "" == out;
    Advance(text, names, links, cursor, n, out, cursor + 1, n, "");
  }

  lemma MentionStep(rest: string, after: string, fills: seq<string>)
    requires AtMention(rest) && rest[2..] == Word(rest[2..]) + after
    ensures Words(rest) == [Word(rest[2..])] + Words(after)
    ensures fills != [] ==> Fill(rest, fills) == fills[0] + Fill(after, fills[1..])
  {
    var n := |Word(rest[2..])|;
    assert rest[2..][n..] == after;
    assert rest[2 + n..] == rest[2..][n..];
  }

  lemma ReachMention(text: string, names: seq<string>, links: seq<string>, cursor: nat, n: nat, out: string, end: nat)
    requires cursor + 2 <= end <= |text| && n < |names| == |links| && Reached(text, names, links, cursor, n, out)
    requires MentionAt(text, cursor) && names[n] == text[cursor + 2..end] == Word(text[cursor + 2..])
    ensures Reached(text, names, links, end, n + 1, out + links[n])
  {
    var after := text[end..];
    assert text[cursor..][2..] == text[cursor + 2..];
    assert text[cursor + 2..] == names[n] + after;
    MentionStep(text[cursor..], after, links[n..]);
    assert links[n..][1..] == links[n + 1..] && names[n..n + 1] == [names[n]];
    Advance(text, names, links, cursor, n, out, end, n + 1, links[n]);
  }

  lemma WrongWord(text: string, names: seq<string>, links: seq<string>, cursor: nat, n: nat, out: string)
    requires cursor <= |text| && n <= |names| == |links| && Reached(text, names, links, cursor, n, out)
    requires MentionAt(text, cursor) && (n < |names| ==> names[n] != Word(text[cursor + 2..]))
    ensures Words(text) != names
  {
    assert text[cursor..][2..] == text[cursor + 2..];
    assert Words(text)[n] == Word(text[cursor + 2..]);
  }

  lemma ReachStart(text: string, names: seq<string>, links: seq<string>)
    requires |names| == |links|
    ensures Reached(text, names, links, 0, 0, "")
  {
    assert text[0..] == text && links[0..] == links;
  }

  lemma ReachEnd(text: string, names: seq<string>, links: seq<string>, n: nat, out: string)
    requires n <= |names| == |links| && Reached(text, names, links, |text|, n, out)
    ensures Words(text) == names <==> n == |names|
    ensures Fill(text, links) == out
  {
    assert Words(text) == names[..n];
  }

  lemma NothingToSerialize(text: string, markers: seq<Marker>)
    requires SENTINEL !in text
    ensures Serialized(text, markers) == text
  {
    StripPlain(text);
    assert markers == [] ==> Links(markers) == [];
    assert |Names(markers)| == |markers|;
  }

  /** The word behind a separator against the next marker; None gives up. */
  method MatchMention(text: string, markers: seq<Marker>, at: nat, n: nat, out: string)
    returns (r: Option<(nat, string)>)
    requires MentionAt(text, at) && n <= |markers| && Reached(text, Names(markers), Links(markers), at, n, out)
    ensures r.None? ==> Words(text) != Names(markers)
    ensures r.Some? ==>
      && n < |markers| && at < r.value.0 <= |text|
      && Reached(text, Names(markers), Links(markers), r.value.0, n + 1, r.value.1)
  {
    var wordEnd := WordEnd(text, at + 2);
    var word := text[at + 2..wordEnd];
    if n == |markers| || markers[n].name != word {
      WrongWord(text, Names(markers), Links(markers), at, n, out);
      return None;
    }
    ReachMention(text, Names(markers), Links(markers), at, n, out, wordEnd);
    return Some((wordEnd, out + Link(markers[n])));
  }

  method SerializeMentions(text: string, markers: seq<Marker>) returns (r: string)
    ensures r == Serialized(text, markers)
  {
    if SENTINEL !in text {
      NothingToSerialize(text, markers);
      return text;
    }
    ghost var names, links := Names(markers), Links(markers);
    var out, cursor, markerIndex := "", 0, 0;
    var aborted := false;
    ReachStart(text, names, links);
    while cursor < |text|
      invariant cursor <= |text| && markerIndex <= |markers| && !aborted
      invariant Reached(text, names, links, cursor, markerIndex, out)
      decreases |text| - cursor
    {
      var sentinelAt := IndexOfSentinel(text, cursor);
      ReachPlain(text, names, links, cursor, markerIndex, out, sentinelAt);
      out := out + text[cursor..sentinelAt];
      if sentinelAt == |text| {
        cursor := |text|;
        break;
      }
      if !MentionAt(text, sentinelAt) {
        ReachStray(text, names, links, sentinelAt, markerIndex, out);
        cursor := sentinelAt + 1;
        continue;
      }
      var matched := MatchMention(text, markers, sentinelAt, markerIndex, out);
      if matched.None? {
        aborted := true;
        break;
      }
      cursor, out := matched.value.0, matched.value.1;
      markerIndex := markerIndex + 1;
    }
    if !aborted {
      ReachEnd(text, names, links, markerIndex, out);
    }
    if aborted || markerIndex != |markers| {
      return Strip(text);
    }
    return out;
  }

  /** Giving up is the same substitution with each mention's own text: the at sign
      and the word, sentinels erased. Nothing is lost and nothing is linked. */
  lemma {:induction false} StripIsFill(text: string)
    ensures Strip(text) == Fill(text, Unlinked(Words(text)))
    decreases |text|
  {
    if text == "" {
    } else if AtMention(text) {
      var word := Word(text[2..]);
      var rest := text[2 + |word|..];
      StripIsFill(rest);
      assert text[2..] == word + rest by {
        assert text[2..][|word|..] == rest;
      }
      StripMention(text, word, rest);
      MentionStep(text, rest, Unlinked(Words(text)));
      assert Unlinked(Words(text))[1..] == Unlinked(Words(rest));
    } else {
      StripIsFill(text[1..]);
    }
  }

  lemma StripMention(text: string, word: string, rest: string)
    requires AtMention(text) && text[2..] == word + rest
    ensures Strip(text) == "@" + Strip(word) + Strip(rest)
  {
    var tail := text[1..];
    assert tail[0] == '@' && tail[1..] == text[2..];
    StripAppend(word, rest);
    Assoc("@", Strip(word), Strip(rest));
  }

  function Unlinked(words: seq<string>): seq<string> {
    seq(|words|, k requires 0 <= k < |words| => "@" + Strip(words[k]))
  }

  lemma {:induction false} StripAppend(a: string, b: string)
    ensures Strip(a + b) == Strip(a) + Strip(b)
  {
    if a == "" {
      assert a + b == b;
    } else {
      assert (a + b)[1..] == a[1..] + b;
      StripAppend(a[1..], b);
    }
  }

  /** Sentinels never leave with the message, unless a linked marker carries one in
      its name or id. */
  lemma SentinelLeaksIff(text: string, markers: seq<Marker>)
    ensures
      SENTINEL in Serialized(text, markers) <==>
      Words(text) == Names(markers)
      && exists k :: 0 <= k < |markers| && (SENTINEL in markers[k].name || SENTINEL in markers[k].id)
  {
    if Words(text) == Names(markers) {
      assert |markers| == |Names(markers)|;
      FillSentinel(text, Links(markers));
      forall k | 0 <= k < |markers|
        ensures SENTINEL in Links(markers)[k] <==> SENTINEL in markers[k].name || SENTINEL in markers[k].id
      {
        LinkSentinel(markers[k]);
      }
    } else {
      StripSentinel(text);
    }
  }

  lemma LinkSentinel(m: Marker)
    ensures SENTINEL in Link(m) <==> SENTINEL in m.name || SENTINEL in m.id
  {
    var shown := if m.kind.Issue? then m.name else "@" + m.name;
    assert SENTINEL in shown <==> SENTINEL in m.name;
    assert SENTINEL !in KindName(m.kind);
    assert SENTINEL !in "](mention://";
  }

  lemma {:induction false} StripSentinel(text: string)
    ensures SENTINEL !in Strip(text)
  {
    if text == "" {
    } else {
      StripSentinel(text[1..]);
    }
  }

  lemma {:induction false} FillSentinel(text: string, fills: seq<string>)
    requires |fills| == |Words(text)|
    ensures SENTINEL in Fill(text, fills) <==> exists k :: 0 <= k < |fills| && SENTINEL in fills[k]
    decreases |text|
  {
    if text == "" {
    } else if AtMention(text) {
      FillSentinel(text[2 + |Word(text[2..])|..], fills[1..]);
      assert fills == [fills[0]] + fills[1..];
    } else {
      FillSentinel(text[1..], fills);
    }
  }

  // Round trip -----------------------------------------------------------------------

  /** Plain pieces with a picked mention after each but the last. */
  function Compose(pieces: seq<string>, ms: seq<Marker>): string
    requires |pieces| == |ms| + 1
  {
    if ms == [] then pieces[0] else pieces[0] + Inserted(ms[0]) + Compose(pieces[1..], ms[1..])
  }

  /** The same pieces with the given strings and a space after each but the last. */
  function Weave(pieces: seq<string>, fills: seq<string>): string
    requires |pieces| == |fills| + 1
  {
    if fills == [] then pieces[0] else pieces[0] + fills[0] + " " + Weave(pieces[1..], fills[1..])
  }

  predicate PlainPieces(pieces: seq<string>) {
    forall k :: 0 <= k < |pieces| ==> NoSentinel(pieces[k])
  }

  predicate OneWordNames(ms: seq<Marker>) {
    forall k :: 0 <= k < |ms| ==> NoSpace(ms[k].name)
  }

  lemma ComposeFirst(pieces: seq<string>, ms: seq<Marker>, fills: seq<string>)
    requires |pieces| == |ms| + 1 && ms != [] && NoSentinel(pieces[0])
    ensures
      var tail := Inserted(ms[0]) + Compose(pieces[1..], ms[1..]);
      && Words(Compose(pieces, ms)) == Words(tail)
      && Fill(Compose(pieces, ms), fills) == pieces[0] + Fill(tail, fills)
  {
    var tail := Inserted(ms[0]) + Compose(pieces[1..], ms[1..]);
    var text := Compose(pieces, ms);
    assert text == pieces[0] + tail;
    assert text[..|pieces[0]|] == pieces[0] && text[|pieces[0]|..] == tail;
    PlainPrefix(text, |pieces[0]|, fills);
  }

  lemma PickedOneWord(m: Marker, rest: string, fills: seq<string>)
    requires NoSpace(m.name)
    ensures Words(Inserted(m) + rest) == [m.name] + Words(rest)
    ensures fills != [] ==> Fill(Inserted(m) + rest, fills) == fills[0] + (" " + Fill(rest, fills[1..]))
  {
    var text := Inserted(m) + rest;
    assert text[2..] == m.name + (" " + rest);
    WordEndsBySpace(m.name, " " + rest);
    MentionStep(text, " " + rest, fills);
    var after := " " + rest;
    assert after[1..] == rest;
  }

  lemma PickedSpaced(m: Marker, rest: string)
    requires !NoSpace(m.name)
    ensures Words(Inserted(m) + rest) != [] && Words(Inserted(m) + rest)[0] != m.name
  {
    var text := Inserted(m) + rest;
    assert text[2..] == m.name + (" " + rest);
    WordEndsBySpace(m.name, " " + rest);
  }

  /** A word ends at the latest where a space follows. */
  lemma {:induction false} WordEndsBySpace(s: string, t: string)
    requires t != "" && t[0] == ' '
    ensures Word(s + t) <= s && (Word(s + t) == s <==> NoSpace(s))
  {
    if s != "" {
      assert (s + t)[1..] == s[1..] + t;
      WordEndsBySpace(s[1..], t);
    } else {
      assert s + t == t;
    }
  }

  /** The words are the names in order exactly when no name has a space. */
  lemma {:induction false} ComposedWords(pieces: seq<string>, ms: seq<Marker>, fills: seq<string>)
    requires |pieces| == |ms| + 1 && |fills| == |ms| && PlainPieces(pieces)
    ensures Words(Compose(pieces, ms)) == Names(ms) <==> OneWordNames(ms)
    ensures OneWordNames(ms) ==> Fill(Compose(pieces, ms), fills) == Weave(pieces, fills)
  {
    if ms == [] {
      StripPlain(pieces[0]);
      assert fills == [];
    } else {
      var rest := Compose(pieces[1..], ms[1..]);
      ComposeFirst(pieces, ms, fills);
      assert Names(ms) == [ms[0].name] + Names(ms[1..]);
      if NoSpace(ms[0].name) {
        ComposedWords(pieces[1..], ms[1..], fills[1..]);
        PickedOneWord(ms[0], rest, fills);
        assert OneWordNames(ms) <==> OneWordNames(ms[1..]) by {
          assert ms == [ms[0]] + ms[1..];
        }
        SameTail([ms[0].name], Words(rest), Names(ms[1..]));
        var filled := Fill(rest, fills[1..]);
        Assoc(fills[0], " ", filled);
        Assoc(pieces[0], fills[0] + " ", filled);
        Assoc(pieces[0], fills[0], " ");
      } else {
        PickedSpaced(ms[0], rest);
      }
    }
  }

  /** Giving up shortens a text that has mentions: every link is longer. */
  lemma {:induction false} LinksAreLonger(pieces: seq<string>, ms: seq<Marker>)
    requires |pieces| == |ms| + 1 && ms != []
    ensures |Strip(Compose(pieces, ms))| < |Weave(pieces, Links(ms))|
  {
    var rest := Compose(pieces[1..], ms[1..]);
    assert Compose(pieces, ms) == pieces[0] + (Inserted(ms[0]) + rest);
    StripAppend(pieces[0], Inserted(ms[0]) + rest);
    StripAppend(Inserted(ms[0]), rest);
    StripShortens(pieces[0]);
    StripShortens(Inserted(ms[0])[1..]);
    assert Links(ms)[0] == Link(ms[0]) && Links(ms)[1..] == Links(ms[1..]);
    assert |Link(ms[0])| > |ms[0].name| + 2;
    if ms[1..] == [] {
      StripShortens(rest);
    } else {
      LinksAreLonger(pieces[1..], ms[1..]);
    }
  }

  lemma {:induction false} StripShortens(text: string)
    ensures |Strip(text)| <= |text|
  {
    if text == "" {
    } else {
      StripShortens(text[1..]);
    }
  }

  /** A composed text comes back as its pieces with the links exactly when no name
      contains a space. */
  lemma RoundTripIff(pieces: seq<string>, ms: seq<Marker>)
    requires |pieces| == |ms| + 1 && PlainPieces(pieces)
    ensures Serialized(Compose(pieces, ms), ms) == Weave(pieces, Links(ms)) <==> OneWordNames(ms)
  {
    ComposedWords(pieces, ms, Links(ms));
    if !OneWordNames(ms) {
      LinksAreLonger(pieces, ms);
    }
  }
}
