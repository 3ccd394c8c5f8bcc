/** The issue record, partial issues ("patches"), and the overlay that object
    spread performs on them. */
module IssueTypes {

  datatype Option<+T> = None | Some(value: T) {
    function GetOr(default: T): T {
      if Some? then value else default
    }
  }

  datatype Status = Backlog | Todo | InProgress | InReview | Done | Blocked | Cancelled

  datatype Priority = Urgent | High | Medium | Low | NoPriority

  datatype ActorType = Member | Agent | Squad

  datatype PropertyValue =
    | Number(n: real)
    | Text(s: string)
    | Flag(b: bool)
    | Choices(options: seq<string>)

  /** A JavaScript object: `ref` is its identity, which is what Object.is compares. */
  datatype PropertyBag = PropertyBag(ref: nat, values: map<string, PropertyValue>)

  /** Timestamps are integers; `description` stands for the remaining scalar
      columns, which nothing indexes, filters or sorts on. */
  datatype Issue = Issue(
    id: string,
    title: string,
    description: Option<string>,
    status: Status,
    priority: Priority,
    assigneeType: Option<ActorType>,
    assigneeId: Option<string>,
    creatorId: string,
    parentId: Option<string>,
    projectId: Option<string>,
    position: real,
    startDate: Option<string>,
    dueDate: Option<string>,
    properties: PropertyBag,
    labels: seq<string>,
    createdAt: int,
    updatedAt: int)

  /** Partial<Issue>: a field is `Some` when the object owns that key. */
  datatype PartialIssue = PartialIssue(
    id: Option<string>,
    title: Option<string>,
    description: Option<Option<string>>,
    status: Option<Status>,
    priority: Option<Priority>,
    assigneeType: Option<Option<ActorType>>,
    assigneeId: Option<Option<string>>,
    creatorId: Option<string>,
    parentId: Option<Option<string>>,
    projectId: Option<Option<string>>,
    position: Option<real>,
    startDate: Option<Option<string>>,
    dueDate: Option<Option<string>>,
    properties: Option<PropertyBag>,
    labels: Option<seq<string>>,
    createdAt: Option<int>,
    updatedAt: Option<int>)

  const EMPTY_PATCH: PartialIssue :=
    PartialIssue(None, None, None, None, None, None, None, None, None, None, None, None, None, None, None, None, None)

  /** `{ ...i, ...p }` for a whole issue. */
  function Merge(i: Issue, p: PartialIssue): Issue {
    Issue(
      p.id.GetOr(i.id),
      p.title.GetOr(i.title),
      p.description.GetOr(i.description),
      p.status.GetOr(i.status),
      p.priority.GetOr(i.priority),
      p.assigneeType.GetOr(i.assigneeType),
      p.assigneeId.GetOr(i.assigneeId),
      p.creatorId.GetOr(i.creatorId),
      p.parentId.GetOr(i.parentId),
      p.projectId.GetOr(i.projectId),
      p.position.GetOr(i.position),
      p.startDate.GetOr(i.startDate),
      p.dueDate.GetOr(i.dueDate),
      p.properties.GetOr(i.properties),
      p.labels.GetOr(i.labels),
      p.createdAt.GetOr(i.createdAt),
      p.updatedAt.GetOr(i.updatedAt))
  }

  /** A whole issue seen as a partial one that owns every key. */
  function Whole(i: Issue): PartialIssue {
    PartialIssue(
      Some(i.id), Some(i.title), Some(i.description), Some(i.status), Some(i.priority),
      Some(i.assigneeType), Some(i.assigneeId), Some(i.creatorId), Some(i.parentId),
      Some(i.projectId), Some(i.position), Some(i.startDate), Some(i.dueDate),
      Some(i.properties), Some(i.labels), Some(i.createdAt), Some(i.updatedAt))
  }

  /** `{ ...base, ...p }` where base may be undefined. */
  function Spread(base: Option<Issue>, p: PartialIssue): PartialIssue {
    if base.Some? then Whole(Merge(base.value, p)) else p
  }

  /** The patch leaves the identity and the creation facts of issue i alone. */
  predicate KeepsIdentity(p: PartialIssue, i: Issue) {
    && p.id.GetOr(i.id) == i.id
    && p.creatorId.GetOr(i.creatorId) == i.creatorId
    && p.createdAt.GetOr(i.createdAt) == i.createdAt
  }

  /** Everything p owns is what i has. */
  predicate Describes(p: PartialIssue, i: Issue) {
    Merge(i, p) == i
  }

  lemma SpreadDescribes(base: Option<Issue>, i: Issue, p: PartialIssue)
    requires base.Some? ==> base.value == i
    ensures Describes(Spread(base, p), Merge(i, p))
    ensures Merge(Merge(i, p), p) == Merge(i, p)
  {
  }
}
