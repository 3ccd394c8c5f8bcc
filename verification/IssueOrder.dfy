/** The client's order of issues (packages/core/issues/queries.ts,
    compareIssuesForSort): a strict total order computed by branches, shown equal
    to the lexicographic order of a sort key, a creation time and an id. */
module IssueOrder {
  import opened IssueTypes
  import opened QueryCache

  /** localeCompare as the order of a rank (every total preorder of the countably
      many strings is one), and String(number). */
  datatype Locale = Locale(rank: string -> real, render: real -> string)

  function Sign(x: real): int {
    if x < 0.0 then -1 else if x > 0.0 then 1 else 0
  }

  function LocaleCompare(l: Locale, a: string, b: string): int {
    Sign(l.rank(a) - l.rank(b))
  }

  /** `x || y` on numbers. */
  function OrElse(x: int, y: int): int {
    if x != 0 then x else y
  }

  /** The `<` of strings. */
  predicate Precedes(a: string, b: string) {
    if b == "" then false
    else if a == "" then true
    else a[0] < b[0] || (a[0] == b[0] && Precedes(a[1..], b[1..]))
  }

  /** The newer issue first, then the greater id first. */
  function TieBreak(a: Issue, b: Issue): int {
    OrElse(Sign((b.createdAt - a.createdAt) as real),
           if Precedes(a.id, b.id) then 1 else if Precedes(b.id, a.id) then -1 else 0)
  }

  function StatusRank(s: Status): int {
    match s
    case Backlog => 0 case Todo => 1 case InProgress => 2 case InReview => 3
    case Done => 4 case Blocked => 5 case Cancelled => 6
  }

  function PriorityRank(p: Priority): int {
    match p
    case Urgent => 0 case High => 1 case Medium => 2 case Low => 3 case NoPriority => 4
  }

  function Property(i: Issue, id: string): Option<PropertyValue> {
    if id in i.properties.values then Some(i.properties.values[id]) else None
  }

  predicate Unsortable(v: Option<PropertyValue>) {
    v.None? || v.value.Choices? || v.value.Flag?
  }

  function Rendered(l: Locale, v: PropertyValue): string {
    match v
    case Number(n) => l.render(n)
    case Text(s) => s
    case Flag(_) => ""
    case Choices(_) => ""
  }

  function MissingAware(l: Locale, dir: int, av: Option<string>, bv: Option<string>, tie: int): int {
    if av.GetOr("") == "" && bv.GetOr("") == "" then tie
    else if av.GetOr("") == "" then 1
    else if bv.GetOr("") == "" then -1
    else OrElse(dir * LocaleCompare(l, av.value, bv.value), tie)
  }

  function CompareIssuesForSort(l: Locale, a: Issue, b: Issue, sort: SortParam): int {
    var field := sort.sortBy.GetOr(ByPosition);
    var dir := if field != ByPosition && sort.descending then -1 else 1;
    var tie := TieBreak(a, b);
    match field
    case ByProperty(id) =>
      var av, bv := Property(a, id), Property(b, id);
      if Unsortable(av) && Unsortable(bv) then tie
      else if Unsortable(av) then 1
      else if Unsortable(bv) then -1
      else if av.value.Number? && bv.value.Number? then OrElse(dir * Sign(av.value.n - bv.value.n), tie)
      else OrElse(dir * LocaleCompare(l, Rendered(l, av.value), Rendered(l, bv.value)), tie)
    case ByStatus => OrElse(dir * Sign((StatusRank(a.status) - StatusRank(b.status)) as real), tie)
    case ByPriority => OrElse(dir * Sign((PriorityRank(a.priority) - PriorityRank(b.priority)) as real), tie)
    case ByTitle => OrElse(dir * LocaleCompare(l, a.title, b.title), tie)
    case ByCreatedAt => OrElse(dir * Sign((a.createdAt - b.createdAt) as real), tie)
    case ByUpdatedAt => OrElse(dir * Sign((a.updatedAt - b.updatedAt) as real), tie)
    case ByStartDate => MissingAware(l, dir, a.startDate, b.startDate, tie)
    case ByDueDate => MissingAware(l, dir, a.dueDate, b.dueDate, tie)
    case ByPosition => OrElse(Sign(a.position - b.position), tie)
  }

  // The sort key ------------------------------------------------------------------

  datatype SortKey = Missing | Ranked(r: real)

  function DateKey(l: Locale, d: Option<string>): SortKey {
    if d.GetOr("") == "" then Missing else Ranked(l.rank(d.value))
  }

  function PropertyKey(l: Locale, v: Option<PropertyValue>): SortKey {
    if Unsortable(v) then Missing
    else if v.value.Number? then Ranked(v.value.n)
    else Ranked(l.rank(Rendered(l, v.value)))
  }

  function KeyOf(l: Locale, i: Issue, sort: SortParam): SortKey {
    match sort.sortBy.GetOr(ByPosition)
    case ByProperty(id) => PropertyKey(l, Property(i, id))
    case ByStatus => Ranked(StatusRank(i.status) as real)
    case ByPriority => Ranked(PriorityRank(i.priority) as real)
    case ByTitle => Ranked(l.rank(i.title))
    case ByCreatedAt => Ranked(i.createdAt as real)
    case ByUpdatedAt => Ranked(i.updatedAt as real)
    case ByStartDate => DateKey(l, i.startDate)
    case ByDueDate => DateKey(l, i.dueDate)
    case ByPosition => Ranked(i.position)
  }

  /** Missing keys come last, whatever the direction. */
  function KeyCompare(dir: int, a: SortKey, b: SortKey): int {
    if a.Missing? && b.Missing? then 0
    else if a.Missing? then 1
    else if b.Missing? then -1
    else dir * Sign(a.r - b.r)
  }

  function Direction(sort: SortParam): int {
    if sort.sortBy.GetOr(ByPosition) != ByPosition && sort.descending then -1 else 1
  }

  /** Two values of one custom property are never a number and a text. */
  predicate SameKind(a: Issue, b: Issue, sort: SortParam) {
    match sort.sortBy.GetOr(ByPosition)
    case ByProperty(id) =>
      var av, bv := Property(a, id), Property(b, id);
      Unsortable(av) || Unsortable(bv) || (av.value.Number? <==> bv.value.Number?)
    case _ => true
  }

  /** The branches compute a lexicographic comparison. */
  lemma CompareIsLexicographic(l: Locale, a: Issue, b: Issue, sort: SortParam)
    requires SameKind(a, b, sort)
    ensures CompareIssuesForSort(l, a, b, sort) ==
            OrElse(KeyCompare(Direction(sort), KeyOf(l, a, sort), KeyOf(l, b, sort)), TieBreak(a, b))
  {
  }

  // A strict total order --------------------------------------------------------------

  lemma {:induction false} PrecedesIsTotal(a: string, b: string)
    ensures Precedes(a, b) || Precedes(b, a) || a == b
    ensures !(Precedes(a, b) && Precedes(b, a)) && !Precedes(a, a)
  {
    if a != "" && b != "" {
      PrecedesIsTotal(a[1..], b[1..]);
      assert a == [a[0]] + a[1..] && b == [b[0]] + b[1..];
    }
    if a == "" {
    } else {
      PrecedesIsTotal(a[1..], a[1..]);
    }
  }

  lemma {:induction false} PrecedesIsTransitive(a: string, b: string, c: string)
    requires Precedes(a, b) && Precedes(b, c)
    ensures Precedes(a, c)
  {
    if a != "" && a[0] == b[0] && b[0] == c[0] {
      PrecedesIsTransitive(a[1..], b[1..], c[1..]);
    }
  }

  lemma TieBreakIsTotal(a: Issue, b: Issue)
    ensures TieBreak(a, b) == -TieBreak(b, a)
    ensures TieBreak(a, b) == 0 <==> a.id == b.id && a.createdAt == b.createdAt
  {
    PrecedesIsTotal(a.id, b.id);
    PrecedesIsTotal(a.id, a.id);
  }

  lemma TieBreakIsTransitive(a: Issue, b: Issue, c: Issue)
    requires TieBreak(a, b) <= 0 && TieBreak(b, c) <= 0
    ensures TieBreak(a, c) <= 0
    ensures TieBreak(a, b) < 0 || TieBreak(b, c) < 0 ==> TieBreak(a, c) < 0
  {
    PrecedesIsTotal(a.id, b.id);
    PrecedesIsTotal(b.id, c.id);
    PrecedesIsTotal(a.id, c.id);
    if Precedes(c.id, b.id) && Precedes(b.id, a.id) {
      PrecedesIsTransitive(c.id, b.id, a.id);
    }
  }

  /** Swapping the arguments flips the sign, and only an issue's twin compares equal. */
  lemma CompareIsAntisymmetric(l: Locale, a: Issue, b: Issue, sort: SortParam)
    requires SameKind(a, b, sort)
    ensures CompareIssuesForSort(l, a, b, sort) == -CompareIssuesForSort(l, b, a, sort)
    ensures CompareIssuesForSort(l, a, b, sort) == 0 <==>
            a.id == b.id && a.createdAt == b.createdAt
            && KeyCompare(Direction(sort), KeyOf(l, a, sort), KeyOf(l, b, sort)) == 0
  {
    CompareIsLexicographic(l, a, b, sort);
    CompareIsLexicographic(l, b, a, sort);
    TieBreakIsTotal(a, b);
  }

  lemma CompareIsTransitive(l: Locale, a: Issue, b: Issue, c: Issue, sort: SortParam)
    requires SameKind(a, b, sort) && SameKind(b, c, sort) && SameKind(a, c, sort)
    requires CompareIssuesForSort(l, a, b, sort) < 0 && CompareIssuesForSort(l, b, c, sort) < 0
    ensures CompareIssuesForSort(l, a, c, sort) < 0
  {
    CompareIsLexicographic(l, a, b, sort);
    CompareIsLexicographic(l, b, c, sort);
    CompareIsLexicographic(l, a, c, sort);
    if TieBreak(a, b) <= 0 && TieBreak(b, c) <= 0 {
      TieBreakIsTransitive(a, b, c);
    }
  }

  predicate Before(l: Locale, a: Issue, b: Issue, sort: SortParam) {
    CompareIssuesForSort(l, a, b, sort) < 0
  }

  // Columns and urgency ------------------------------------------------------------------

  const STATUS_ORDER: seq<Status> := [Backlog, Todo, InProgress, InReview, Done, Blocked, Cancelled]
  const PRIORITY_ORDER: seq<Priority> := [Urgent, High, Medium, Low, NoPriority]

  predicate Precedence<T(==)>(order: seq<T>, a: T, b: T) {
    exists j, k :: 0 <= j < k < |order| && order[j] == a && order[k] == b
  }

  lemma RanksFollowOrder()
    ensures forall k :: 0 <= k < |STATUS_ORDER| ==> StatusRank(STATUS_ORDER[k]) == k
    ensures forall k :: 0 <= k < |PRIORITY_ORDER| ==> PriorityRank(PRIORITY_ORDER[k]) == k
  {
  }

  lemma ColumnsInOrder(l: Locale, a: Issue, b: Issue, sort: SortParam)
    requires sort.sortBy == Some(ByStatus)
    requires if sort.descending then StatusRank(b.status) < StatusRank(a.status)
             else StatusRank(a.status) < StatusRank(b.status)
    ensures Before(l, a, b, sort)
  {
  }

  lemma UrgencyInOrder(l: Locale, a: Issue, b: Issue, sort: SortParam)
    requires sort.sortBy == Some(ByPriority)
    requires if sort.descending then PriorityRank(b.priority) < PriorityRank(a.priority)
             else PriorityRank(a.priority) < PriorityRank(b.priority)
    ensures Before(l, a, b, sort)
  {
  }

  /** A sort by status follows the order of the columns, one by priority that of
      urgency, and a descending one is the other way round. */
  lemma ColumnsAndUrgency(l: Locale, a: Issue, b: Issue, sort: SortParam)
    requires sort.sortBy == Some(ByStatus) || sort.sortBy == Some(ByPriority)
    ensures
      var first, second := if sort.descending then b else a, if sort.descending then a else b;
      && (sort.sortBy == Some(ByStatus) && Precedence(STATUS_ORDER, first.status, second.status) ==>
            Before(l, a, b, sort))
      && (sort.sortBy == Some(ByPriority) && Precedence(PRIORITY_ORDER, first.priority, second.priority) ==>
            Before(l, a, b, sort))
  {
    RanksFollowOrder();
    if sort.sortBy == Some(ByStatus) {
      if if sort.descending then StatusRank(b.status) < StatusRank(a.status)
         else StatusRank(a.status) < StatusRank(b.status) {
        ColumnsInOrder(l, a, b, sort);
      }
    } else if if sort.descending then PriorityRank(b.priority) < PriorityRank(a.priority)
              else PriorityRank(a.priority) < PriorityRank(b.priority) {
      UrgencyInOrder(l, a, b, sort);
    }
  }

  // Numbers and texts in one property ---------------------------------------------------

  ghost predicate Transitive(l: Locale, sort: SortParam) {
    forall a: Issue, b: Issue, c: Issue :: Before(l, a, b, sort) && Before(l, b, c, sort) ==> Before(l, a, c, sort)
  }

  /** Numbers sort as texts the way they sort as numbers. */
  ghost predicate RendersInOrder(l: Locale) {
    forall x: real, y: real :: x < y ==> l.rank(l.render(x)) < l.rank(l.render(y))
  }

  function Holding(i: Issue, id: string, v: PropertyValue, createdAt: int): Issue {
    i.(properties := PropertyBag(0, map[id := v]), createdAt := createdAt)
  }

  /** Two numbers that sort otherwise as texts make a cycle with the text of the
      smaller one: 9 < 10 as numbers, but "10" < "9" as texts. */
  lemma MixedPropertyCycles(l: Locale, i: Issue, sort: SortParam, x: real, y: real)
    returns (a: Issue, b: Issue, c: Issue)
    requires sort.sortBy.Some? && sort.sortBy.value.ByProperty?
    requires x < y && l.rank(l.render(y)) <= l.rank(l.render(x))
    ensures Before(l, a, b, sort) && Before(l, b, c, sort) && Before(l, c, a, sort)
  {
    var id := sort.sortBy.value.propertyId;
    if sort.descending {
      a := Holding(i, id, Number(y), 1);
      b := Holding(i, id, Number(x), 3);
      c := Holding(i, id, Text(l.render(x)), 2);
    } else {
      a := Holding(i, id, Number(x), 1);
      b := Holding(i, id, Number(y), 3);
      c := Holding(i, id, Text(l.render(x)), 2);
    }
  }

  /** Where numbers render in order, a number may be taken for its text. */
  function TextKey(l: Locale, v: Option<PropertyValue>): SortKey {
    if Unsortable(v) then Missing else Ranked(l.rank(Rendered(l, v.value)))
  }

  lemma ComparesTexts(l: Locale, a: Issue, b: Issue, sort: SortParam)
    requires sort.sortBy.Some? && sort.sortBy.value.ByProperty? && RendersInOrder(l)
    ensures
      var id := sort.sortBy.value.propertyId;
      CompareIssuesForSort(l, a, b, sort) ==
      OrElse(KeyCompare(Direction(sort), TextKey(l, Property(a, id)), TextKey(l, Property(b, id))), TieBreak(a, b))
  {
    var av, bv := Property(a, sort.sortBy.value.propertyId), Property(b, sort.sortBy.value.propertyId);
    if !Unsortable(av) && !Unsortable(bv) && av.value.Number? && bv.value.Number? {
      assert av.value.n < bv.value.n ==> l.rank(l.render(av.value.n)) < l.rank(l.render(bv.value.n));
      assert bv.value.n < av.value.n ==> l.rank(l.render(bv.value.n)) < l.rank(l.render(av.value.n));
    }
  }

  /** Over all issues a property sort is an order exactly in a locale in which numbers
      render in order. */
  lemma PropertySortIsTransitiveIff(l: Locale, sort: SortParam)
    requires sort.sortBy.Some? && sort.sortBy.value.ByProperty?
    ensures Transitive(l, sort) <==> RendersInOrder(l)
  {
    if RendersInOrder(l) {
      forall a: Issue, b: Issue, c: Issue | Before(l, a, b, sort) && Before(l, b, c, sort)
        ensures Before(l, a, c, sort)
      {
        TextsAreTransitive(l, a, b, c, sort);
      }
    } else {
      var x: real, y: real :| x < y && l.rank(l.render(y)) <= l.rank(l.render(x));
      var i: Issue := *;
      var a, b, c := MixedPropertyCycles(l, i, sort, x, y);
      if Transitive(l, sort) {
        assert Before(l, a, c, sort);
        assert Before(l, a, a, sort);
        CompareIsAntisymmetric(l, a, a, sort);
      }
    }
  }

  lemma TextsAreTransitive(l: Locale, a: Issue, b: Issue, c: Issue, sort: SortParam)
    requires sort.sortBy.Some? && sort.sortBy.value.ByProperty? && RendersInOrder(l)
    requires Before(l, a, b, sort) && Before(l, b, c, sort)
    ensures Before(l, a, c, sort)
  {
    ComparesTexts(l, a, b, sort);
    ComparesTexts(l, b, c, sort);
    ComparesTexts(l, a, c, sort);
    if TieBreak(a, b) <= 0 && TieBreak(b, c) <= 0 {
      TieBreakIsTransitive(a, b, c);
    }
  }
}
