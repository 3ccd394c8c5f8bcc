/** The links the serializer writes, read back the way the editor's tokenizer reads them
    (apps/mobile/lib/mention-serialize.ts,
    packages/views/editor/extensions/mention-extension.ts). */
module MentionLinks {
  import opened IssueTypes
  import opened Mentions

  /** The longest prefix without c. */
  function Upto(s: string, c: char): (t: string)
    ensures t <= s && c !in t
    ensures |t| < |s| ==> s[|t|] == c
  {
    if s == "" || s[0] == c then "" else [s[0]] + Upto(s[1..], c)
  }

  lemma {:induction false} UptoStops(s: string, c: char, rest: string)
    requires c !in s
    ensures Upto(s + [c] + rest, c) == s
  {
    if s == "" {
    } else {
      UptoStops(s[1..], c, rest);
      assert (s + [c] + rest)[1..] == s[1..] + [c] + rest;
    }
  }

  /** What is behind a prefix, if s has it. */
  function Behind(s: string, prefix: string): Option<string> {
    if prefix <= s then Some(s[|prefix|..]) else None
  }

  datatype Mention = Mention(shown: string, kind: string, id: string)

  function ReadId(shown: string, kind: string, tail: string): Option<(Mention, string)> {
    var id := Upto(tail, ')');
    var rest := Behind(tail[|id|..], ")");
    if id == "" || rest.None? then None else Some((Mention(shown, kind, id), rest.value))
  }

  function ReadTarget(shown: string, target: string): Option<(Mention, string)> {
    var kind := Upto(target, '/');
    var tail := Behind(target[|kind|..], "/");
    if kind == "" || tail.None? then None else ReadId(shown, kind, tail.value)
  }

  /** What follows the bracket and the at sign: a label without escapes, then the kind
      and the id. */
  function ReadInner(inner: string): Option<(Mention, string)> {
    var shown := Upto(inner, ']');
    var target := Behind(inner[|shown|..], "](mention://");
    if shown == "" || '\\' in shown || target.None? then None else ReadTarget(shown, target.value)
  }

  function ReadLink(s: string): Option<(Mention, string)> {
    if "[@" <= s then ReadInner(s[2..]) else if "[" <= s then ReadInner(s[1..]) else None
  }

  /** Names and ids that need no escaping; an issue's name does not start with the at
      sign of the others. */
  predicate Plain(m: Marker) {
    && m.name != "" && ']' !in m.name && '\\' !in m.name
    && m.id != "" && ')' !in m.id
    && (m.kind.Issue? ==> m.name[0] != '@')
  }

  lemma KindsDiffer(a: MentionType, b: MentionType)
    ensures KindName(a) == KindName(b) ==> a == b
    ensures KindName(a) != "" && '/' !in KindName(a)
  {
  }

  lemma BehindPrefix(prefix: string, rest: string)
    ensures Behind(prefix + rest, prefix) == Some(rest)
  {
  }

  /** A label is read up to its end, and so are the kind and the id. */
  lemma LabelIsRead(shown: string, target: string)
    requires ']' !in shown
    ensures
      var s := shown + "](mention://" + target;
      Upto(s, ']') == shown && Behind(s[|shown|..], "](mention://") == Some(target)
  {
    var s := shown + "](mention://" + target;
    UptoStops(shown, ']', "(mention://" + target);
    assert s == shown + "]" + ("(mention://" + target);
    assert s[|shown|..] == "](mention://" + target;
  }

  lemma PartIsRead(part: string, end: char, rest: string)
    requires end !in part
    ensures Upto(part + [end] + rest, end) == part
    ensures Behind((part + [end] + rest)[|part|..], [end]) == Some(rest)
  {
    UptoStops(part, end, rest);
    assert (part + [end] + rest)[|part|..] == [end] + rest;
  }

  function Inner(m: Marker): string {
    m.name + "](mention://" + KindName(m.kind) + "/" + m.id + ")"
  }

  lemma TargetIsRead(shown: string, kind: string, id: string, rest: string)
    requires kind != "" && '/' !in kind && id != "" && ')' !in id
    ensures ReadTarget(shown, kind + "/" + (id + ")" + rest)) == Some((Mention(shown, kind, id), rest))
  {
    PartIsRead(kind, '/', id + ")" + rest);
    PartIsRead(id, ')', rest);
  }

  lemma InnerIsGrouped(m: Marker, rest: string)
    ensures Inner(m) + rest == m.name + "](mention://" + (KindName(m.kind) + "/" + (m.id + ")" + rest))
  {
    Regroup(m.name + "](mention://" + KindName(m.kind) + "/", m.id + ")", rest);
    Regroup(m.name + "](mention://" + KindName(m.kind) + "/", m.id, ")");
    Regroup(m.name + "](mention://", KindName(m.kind), "/");
    Regroup(m.name + "](mention://", KindName(m.kind) + "/", m.id + ")" + rest);
  }

  lemma InnerIsRead(m: Marker, rest: string)
    requires Plain(m)
    ensures ReadInner(Inner(m) + rest) == Some((Mention(m.name, KindName(m.kind), m.id), rest))
  {
    KindsDiffer(m.kind, m.kind);
    InnerIsGrouped(m, rest);
    LabelIsRead(m.name, KindName(m.kind) + "/" + (m.id + ")" + rest));
    TargetIsRead(m.name, KindName(m.kind), m.id, rest);
  }

  lemma LinkIsBracketed(m: Marker)
    ensures Link(m) == (if m.kind.Issue? then "[" else "[@") + Inner(m)
  {
    assert "[" + ("@" + m.name) == "[@" + m.name;
  }

  lemma InnerIsOpened(inner: string)
    requires inner != ""
    ensures ReadLink("[@" + inner) == ReadInner(inner)
    ensures inner[0] != '@' ==> ReadLink("[" + inner) == ReadInner(inner)
  {
    assert ("[@" + inner)[2..] == inner && ("[" + inner)[1..] == inner;
    assert ("[" + inner)[1] == inner[0];
  }

  lemma InnerStart(m: Marker, rest: string)
    requires Plain(m)
    ensures Inner(m) + rest != "" && (Inner(m) + rest)[0] == m.name[0]
  {
  }

  lemma Regroup(a: string, b: string, c: string)
    ensures (a + b) + c == a + (b + c)
  {
  }

  /** Every link is read as the mention it was made of, whatever follows. */
  lemma LinkIsRead(m: Marker, rest: string)
    requires Plain(m)
    ensures ReadLink(Link(m) + rest) == Some((Mention(m.name, KindName(m.kind), m.id), rest))
  {
    InnerIsRead(m, rest);
    InnerStart(m, rest);
    InnerIsOpened(Inner(m) + rest);
    LinkIsBracketed(m);
    Regroup(if m.kind.Issue? then "[" else "[@", Inner(m), rest);
  }

  /** So no two mentions share a link. */
  lemma LinksDiffer(m: Marker, n: Marker)
    requires Plain(m) && Plain(n) && Link(m) == Link(n)
    ensures m == n
  {
    LinkIsRead(m, "");
    LinkIsRead(n, "");
    KindsDiffer(m.kind, n.kind);
  }
}
