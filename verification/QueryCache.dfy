/** The query cache of one workspace: typed entries under structured keys
    (packages/core/issues/queries.ts, issueKeys) and the client that holds them. */
module QueryCache {
  import opened IssueTypes
  import opened Membership
  import opened Buckets
  import opened Selection

  datatype SortBy =
    | ByPosition | ByStatus | ByPriority | ByTitle
    | ByCreatedAt | ByUpdatedAt | ByStartDate | ByDueDate
    | ByProperty(propertyId: string)

  datatype DateField = CreatedAtField | UpdatedAtField

  /** IssueSortParam: the order of a list, and the date window and property
      filters that travel with it. */
  datatype SortParam = SortParam(
    sortBy: Option<SortBy>,
    descending: bool,
    dateField: Option<DateField>,
    dateStart: Option<string>,
    dateEnd: Option<string>,
    properties: map<string, seq<string>>)

  datatype ActorRef = ActorRef(actorType: ActorType, id: string)

  /** IssueFlatFilter: the list filter plus the facets of a flat window. An
      absent facet list is the empty one. */
  datatype FlatFilter = FlatFilter(
    list: ListFilter,
    q: string,
    statuses: seq<Status>,
    priorities: seq<Priority>,
    assigneeFilters: seq<ActorRef>,
    includeNoAssignee: bool,
    creatorFilters: seq<ActorRef>,
    projectIds: seq<string>,
    includeNoProject: bool,
    labelIds: seq<string>,
    topLevelOnly: bool,
    ids: seq<string>)

  datatype Key =
    | BoardKey(sort: SortParam)
    | MyBoardKey(scope: string, filter: ListFilter, sort: SortParam)
    | MyGroupsKey(groupScope: string)
    | FlatKey(flatScope: string, flatFilter: FlatFilter, sort: SortParam)
    | FlatExportKey(exportScope: string)
    | TableKey(query: string)
    | DetailKey(id: string)
    | ChildrenKey(parentId: string)
    | InboxKey
    | ArchivedInboxKey
    | ScopedKey(kind: string, id: string)

  datatype Page = Page(issues: seq<Issue>, total: nat)

  datatype Row = Row(issue: Issue, directChildCount: nat)

  datatype InboxItem = InboxItem(id: string, issueId: Option<string>, issueStatus: Option<Status>, read: bool)

  datatype Entry =
    | Board(cache: ListCache)
    | Groups(grouped: map<string, seq<Issue>>)
    | Window(pages: seq<Page>, pageParams: seq<int>)
    | Table(rows: seq<Row>, rowTotal: nat, nextCursor: Option<string>)
    | IssueData(issue: Issue)
    | IssueList(issues: seq<Issue>)
    | Inbox(items: seq<InboxItem>)
    | Other(data: string)

  type Entries = map<Key, Entry>

  datatype Snapshot = Snapshot(key: Key, entry: Entry)

  predicate IsBoard(k: Key, e: Entry) {
    (k.BoardKey? || k.MyBoardKey? || k.MyGroupsKey?) && e.Board?
  }

  predicate IsWindow(k: Key, e: Entry) {
    k.FlatKey? && e.Window?
  }

  predicate IsTable(k: Key, e: Entry) {
    k.TableKey? && e.Table?
  }

  function DetailOf(entries: Entries, id: string): Option<Issue> {
    var k := DetailKey(id);
    if k in entries && entries[k].IssueData? then Some(entries[k].issue) else None
  }

  function InboxOf(entries: Entries, k: Key): Option<seq<InboxItem>> {
    if k in entries && entries[k].Inbox? then Some(entries[k].items) else None
  }

  ghost predicate Distinct<T>(s: seq<T>) {
    forall j, k :: 0 <= j < k < |s| ==> s[j] != s[k]
  }

  /** getQueriesData: the entries of a key family, oldest first. */
  function QueriesData(order: seq<Key>, entries: Entries, family: Key -> bool): (r: seq<Snapshot>)
    ensures forall s <- r :: s.key in order && s.key in entries && family(s.key) && s.entry == entries[s.key]
    ensures forall k <- order | k in entries && family(k) :: Snapshot(k, entries[k]) in r
    ensures Distinct(order) ==> forall j, k :: 0 <= j < k < |r| ==> r[j].key != r[k].key
  {
    if order == [] then []
    else
      var rest := QueriesData(order[1..], entries, family);
      if order[0] in entries && family(order[0]) then [Snapshot(order[0], entries[order[0]])] + rest else rest
  }

  class QueryClient {
    var order: seq<Key>
    var entries: Entries

    ghost predicate Valid()
      reads this
    {
      Distinct(order) && forall k :: k in order <==> k in entries
    }

    constructor ()
      ensures Valid() && entries == map[]
    {
      order, entries := [], map[];
    }

    method SetQueryData(key: Key, entry: Entry)
      requires Valid()
      modifies this`order, this`entries
      ensures Valid()
      ensures entries == old(entries)[key := entry]
      ensures order == if key in old(entries) then old(order) else old(order) + [key]
    {
      if key !in entries {
        order := order + [key];
      }
      entries := entries[key := entry];
    }

    /** removeQueries, for a family of keys. */
    method RemoveQueries(family: Key -> bool)
      requires Valid()
      modifies this`order, this`entries
      ensures Valid()
      ensures order == Others(old(order), family)
      ensures entries == map k | k in old(entries) && !family(k) :: old(entries)[k]
    {
      order := Others(order, family);
      entries := map k | k in entries && !family(k) :: entries[k];
    }
  }

  function Others(order: seq<Key>, family: Key -> bool): (r: seq<Key>)
    ensures forall k :: k in r <==> k in order && !family(k)
    ensures Distinct(order) ==> Distinct(r)
  {
    if order == [] then []
    else
      var rest := Others(order[1..], family);
      assert Distinct(order) ==> order[0] !in order[1..] && Distinct(order[1..]);
      if family(order[0]) then rest else [order[0]] + rest
  }

  function Outside(family: Key -> bool): Key -> bool {
    (k: Key) => !family(k)
  }

  /** The other keys keep their order. */
  lemma {:induction false} OthersInOrder(order: seq<Key>, family: Key -> bool)
    ensures Selected(order, Outside(family), Others(order, family))
  {
    if order == [] {
      NothingSelected(order, Outside(family));
    } else {
      OthersInOrder(order[1..], family);
      SelectedHead(order, Outside(family), Others(order[1..], family));
    }
  }
}
