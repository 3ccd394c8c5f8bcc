/** Which list an issue belongs to, as far as the client can tell
    (packages/core/issues/surface/membership.ts), against what the server means. */
module Membership {
  import opened IssueTypes

  datatype ListFilter = ListFilter(
    assigneeId: Option<string>,
    assigneeIds: Option<seq<string>>,
    assigneeTypes: Option<seq<ActorType>>,
    creatorId: Option<string>,
    projectId: Option<string>,
    involvesUserId: Option<string>)

  const NO_FILTER: ListFilter := ListFilter(None, None, None, None, None, None)

  datatype Answer = Yes | No | Unknown

  datatype ChangedDims = ChangedDims(assignee: bool, project: bool, status: bool)

  const ALL_SCOPE: Option<string> := Some("all")

  function IssueChangedDims(patch: PartialIssue, base: Option<Issue>): ChangedDims {
    ChangedDims(
      || (patch.assigneeId.Some? && (base.None? || base.value.assigneeId != patch.assigneeId.value))
      || (patch.assigneeType.Some? && (base.None? || base.value.assigneeType != patch.assigneeType.value)),
      patch.projectId.Some? && (base.None? || base.value.projectId != patch.projectId.value),
      patch.status.Some? && (base.None? || base.value.status != patch.status.value))
  }

  predicate ListFilterDependsOn(scope: Option<string>, filter: ListFilter, changed: ChangedDims) {
    if scope == ALL_SCOPE then
      changed.assignee
    else
      || (changed.assignee
          && (filter.assigneeId.Some? || filter.assigneeIds.Some? || filter.assigneeTypes.Some?
              || filter.involvesUserId.Some?))
      || (changed.project && filter.projectId.Some?)
  }

  /** One filter condition on a possibly missing field. */
  function Condition<T>(active: bool, field: Option<T>, holds: T -> bool): Answer {
    if !active then Yes
    else if field.None? then Unknown
    else if holds(field.value) then Yes else No
  }

  /** The first refusal wins; otherwise one unknown makes the answer unknown. */
  function Both(a: Answer, b: Answer): Answer {
    if a == No || b == No then No
    else if a == Unknown || b == Unknown then Unknown
    else Yes
  }

  predicate AssigneeIs(filter: ListFilter, a: Option<string>) {
    filter.assigneeId.Some? ==> a == filter.assigneeId
  }

  predicate AssigneeAmong(filter: ListFilter, a: Option<string>) {
    filter.assigneeIds.Some? ==> a.Some? && a.value in filter.assigneeIds.value
  }

  predicate AssigneeTypeAmong(filter: ListFilter, t: Option<ActorType>) {
    filter.assigneeTypes.Some? ==> t.Some? && t.value in filter.assigneeTypes.value
  }

  predicate CreatorIs(filter: ListFilter, c: string) {
    filter.creatorId.Some? ==> c == filter.creatorId.value
  }

  predicate ProjectIs(filter: ListFilter, p: Option<string>) {
    filter.projectId.Some? ==> p == filter.projectId
  }

  function IssueMatchesListFilter(issue: PartialIssue, scope: Option<string>, filter: ListFilter): Answer {
    if scope == ALL_SCOPE then
      Unknown
    else
      Both(Condition(filter.assigneeId.Some?, issue.assigneeId, a => AssigneeIs(filter, a)),
      Both(Condition(filter.assigneeIds.Some?, issue.assigneeId, a => AssigneeAmong(filter, a)),
      Both(Condition(filter.assigneeTypes.Some?, issue.assigneeType, t => AssigneeTypeAmong(filter, t)),
      Both(Condition(filter.creatorId.Some?, issue.creatorId, c => CreatorIs(filter, c)),
      Both(Condition(filter.projectId.Some?, issue.projectId, p => ProjectIs(filter, p)),
           if filter.involvesUserId.Some? then Unknown else Yes)))))
  }

  // What the server means by a list ------------------------------------------

  /** The facts about an issue that decide whose it is. */
  datatype Ownership = Ownership(
    id: string,
    creatorId: string,
    assigneeType: Option<ActorType>,
    assigneeId: Option<string>)

  function OwnershipOf(i: Issue): Ownership {
    Ownership(i.id, i.creatorId, i.assigneeType, i.assigneeId)
  }

  /** What only the server can decide: whom an issue involves, and which issues
      are "mine" under the scope "all". */
  datatype Server = Server(involves: (string, Ownership) -> bool, mine: Ownership -> bool)

  /** Does the server put issue i in the list (scope, filter)? */
  predicate Matches(server: Server, scope: Option<string>, filter: ListFilter, i: Issue) {
    if scope == ALL_SCOPE then
      server.mine(OwnershipOf(i))
    else
      && AssigneeIs(filter, i.assigneeId)
      && AssigneeAmong(filter, i.assigneeId)
      && AssigneeTypeAmong(filter, i.assigneeType)
      && CreatorIs(filter, i.creatorId)
      && ProjectIs(filter, i.projectId)
      && (filter.involvesUserId.Some? ==> server.involves(filter.involvesUserId.value, OwnershipOf(i)))
  }

  /** Definite answers are right, even from a partial issue. */
  lemma DefiniteAnswersAreRight(server: Server, p: PartialIssue, i: Issue, scope: Option<string>, filter: ListFilter)
    requires Describes(p, i)
    ensures IssueMatchesListFilter(p, scope, filter) == Yes ==> Matches(server, scope, filter, i)
    ensures IssueMatchesListFilter(p, scope, filter) == No ==> !Matches(server, scope, filter, i)
  {
  }

  /** For a whole issue the answer is unknown only where the server alone can tell. */
  lemma WholeIssueUnknownIff(i: Issue, scope: Option<string>, filter: ListFilter)
    ensures IssueMatchesListFilter(Whole(i), scope, filter) == Unknown <==>
            || scope == ALL_SCOPE
            || (filter.involvesUserId.Some?
                && IssueMatchesListFilter(Whole(i), scope, filter.(involvesUserId := None)) == Yes)
  {
  }

  /** The dimensions do not miss a difference between two states of an issue. */
  predicate Covers(changed: ChangedDims, i: Issue, j: Issue) {
    && (!changed.assignee ==> i.assigneeId == j.assigneeId && i.assigneeType == j.assigneeType)
    && (!changed.project ==> i.projectId == j.projectId)
    && (!changed.status ==> i.status == j.status)
  }

  lemma ChangedDimsCover(patch: PartialIssue, base: Option<Issue>, i: Issue)
    requires base.Some? ==> base.value == i
    ensures Covers(IssueChangedDims(patch, base), i, Merge(i, patch))
    ensures base.Some? ==>
      var d := IssueChangedDims(patch, base);
      && (d.status <==> i.status != Merge(i, patch).status)
      && (d.project <==> i.projectId != Merge(i, patch).projectId)
      && (d.assignee <==> i.assigneeId != Merge(i, patch).assigneeId || i.assigneeType != Merge(i, patch).assigneeType)
  {
  }

  /** A filter that does not depend on the changed dimensions keeps its members. */
  lemma UntouchedFilterKeepsMembership(
      server: Server, scope: Option<string>, filter: ListFilter, changed: ChangedDims, i: Issue, j: Issue)
    requires i.id == j.id && i.creatorId == j.creatorId
    requires Covers(changed, i, j)
    requires !ListFilterDependsOn(scope, filter, changed)
    ensures Matches(server, scope, filter, i) <==> Matches(server, scope, filter, j)
  {
  }
}
