/** Safety over whole runs: however edits, announcements, replies, creations,
    deletions and refetches follow each other, every view that is not marked stale
    shows the truth. */
module CacheRuns {
  import opened IssueTypes
  import opened QueryCache
  import opened Coordinator
  import opened CoordinatorLaws
  import opened IssueOrder
  import opened BatchUpdate
  import opened WsUpdates
  import opened FieldHandlers
  import opened DeleteCache
  import opened CreateIssue
  import opened ApplyChange
  import opened Rollback
  import opened Coherence
  import opened InFlight

  // Whole runs -----------------------------------------------------------------------------

  /** An issue is edited by this client, a change is announced by the server, an edit
      is answered, a property or label change is announced, an issue is created, by this
      client or another, or deleted, an edit of this client is made, followed by others,
      fails and is rolled back, or a view is fetched again. */
  datatype Event =
    | Changed(id: string, patch: PartialIssue)
    | Announced(id: string, patch: PartialIssue, flags: Flags)
    | Replied(intent: PartialIssue, reply: Issue)
    | FieldSet(id: string, field: Field)
    | Added(issue: Issue, own: bool)
    | Deleted(id: string)
    | Failed(edit: Edit, saved: Change, later: seq<Edit>)
    | Refetched(key: Key, entry: Entry)

  /** The coordinator's edit behind an event. */
  function EditOf(s: State, ev: Event): Edit
    requires ev.Changed? || ev.Announced? || ev.Replied?
  {
    match ev
    case Changed(id, p) => BatchEdit(s.entries, id, p)
    case Announced(id, p, flags) => AnnouncedEdit(s.order, s.entries, id, p, flags)
    case Replied(intent, reply) => ReplyEdit(intent, reply)
  }

  /** The saved change is what the edit reported, and the later edits, to other issues,
      left what it has snapshots of. */
  ghost predicate FailsWell(
      b: Backend, l: Locale, watch: Watch, s: State, ed: Edit, r: Change, later: seq<Edit>)
  {
    && Informed(s.world, ed) && (forall x <- later :: x.id in s.world)
    && Distinct(s.order) && (forall k :: k in s.order <==> k in s.entries) && Reports(r, s.order, s.entries, ed)
    && ProperLater(b, l, watch, s, later, ed.id) && LeavesHeld(s.entries, r, ed.id, later)
  }

  /** The world of the later edits alone. */
  function RollbackPerformed(s: State, ed: Edit, r: Change, later: seq<Edit>): State
    requires ed.id in s.world && forall x <- later :: x.id in s.world
  {
    var failed := Later(Performed(s, ed), later);
    State(Later(s, later).world, s.order, RolledBack(failed.entries, ed.id, r), failed.stale)
  }

  ghost predicate Possible(b: Backend, l: Locale, watch: Watch, s: State, ev: Event) {
    match ev
    case Refetched(k, e) => Sound(s.world, k, e) && (watch(k) ==> Current(b, l, s.world, k, e))
    case FieldSet(id, f) =>
      && id in s.world
      && Harmless(b, l, watch, s, InvalidatedKeys(s.entries, f), s.world[id], Merge(s.world[id], FieldPatch(f)))
    case Added(issue, own) =>
      && FreshId(s.world, s.entries, issue)
      && forall k <- s.entries :: watch(k) && k !in s.stale && !CreationInvalidates(k, issue, own) ==>
           WelcomeAt(b, s.world, k, s.entries[k], issue)
    case Deleted(id) => !ReadsGroups(s.entries)
    case Failed(ed, r, later) => FailsWell(b, l, watch, s, ed, r, later)
    case _ => ProperEdit(b, l, watch, s, EditOf(s, ev))
  }

  function Next(s: State, ev: Event): State {
    match ev
    case Refetched(k, e) =>
      State(s.world, if k in s.entries then s.order else s.order + [k], s.entries[k := e], s.stale - {k})
    case FieldSet(id, f) => if id in s.world then FieldPerformed(s, id, f) else s
    case Added(issue, own) => CreationPerformed(s, issue, own)
    case Deleted(id) => DeletionPerformed(s, id)
    case Failed(ed, r, later) =>
      if ed.id in s.world && forall x <- later :: x.id in s.world then RollbackPerformed(s, ed, r, later) else s
    case _ => if EditOf(s, ev).id in s.world then Performed(s, EditOf(s, ev)) else s
  }

  function After(s: State, events: seq<Event>): State {
    if events == [] then s else Next(After(s, events[..|events| - 1]), events[|events| - 1])
  }

  ghost predicate PossibleRun(b: Backend, l: Locale, watch: Watch, s: State, events: seq<Event>) {
    events != [] ==>
      && PossibleRun(b, l, watch, s, events[..|events| - 1])
      && Possible(b, l, watch, After(s, events[..|events| - 1]), events[|events| - 1])
  }

  /** An edit of this client is possible in every coherent state, if harmless where it
      is not reported. */
  lemma OwnEditIsPossible(b: Backend, l: Locale, watch: Watch, s: State, id: string, p: PartialIssue)
    requires CoherentState(b, l, watch, s) && id in s.world && KeepsIdentity(p, s.world[id])
    requires
      var ed := BatchEdit(s.entries, id, p);
      Harmless(b, l, watch, s, StaleKeys(s.entries, ed), s.world[id], Merge(s.world[id], p))
    ensures Possible(b, l, watch, s, Changed(id, p))
  {
    BatchEditIsInformed(s.world, s.entries, id, p);
  }

  lemma RefetchStaysCoherent(b: Backend, l: Locale, watch: Watch, s: State, ev: Event)
    requires ev.Refetched? && CoherentState(b, l, watch, s) && Possible(b, l, watch, s, ev)
    ensures CoherentState(b, l, watch, Next(s, ev))
  {
  }

  lemma EditStaysCoherent(b: Backend, l: Locale, watch: Watch, s: State, ev: Event)
    requires ev.Changed? || ev.Announced? || ev.Replied?
    requires CoherentState(b, l, watch, s) && Possible(b, l, watch, s, ev)
    ensures CoherentState(b, l, watch, Next(s, ev))
  {
    EditKeepsCoherent(b, l, watch, s, EditOf(s, ev));
  }

  lemma FieldStaysCoherent(b: Backend, l: Locale, watch: Watch, s: State, ev: Event)
    requires ev.FieldSet? && CoherentState(b, l, watch, s) && Possible(b, l, watch, s, ev)
    ensures CoherentState(b, l, watch, Next(s, ev))
  {
    FieldKeepsCoherent(b, l, watch, s, ev.id, ev.field);
  }

  lemma AdditionStaysCoherent(b: Backend, l: Locale, watch: Watch, s: State, ev: Event)
    requires ev.Added? && CoherentState(b, l, watch, s) && Possible(b, l, watch, s, ev)
    ensures CoherentState(b, l, watch, Next(s, ev))
  {
    CreationKeepsCoherent(b, l, watch, s, ev.issue, ev.own);
  }

  lemma DeletionStaysCoherent(b: Backend, l: Locale, watch: Watch, s: State, ev: Event)
    requires ev.Deleted? && CoherentState(b, l, watch, s) && Possible(b, l, watch, s, ev)
    ensures CoherentState(b, l, watch, Next(s, ev))
  {
    DeletionKeepsCoherent(b, l, watch, s, ev.id);
  }

  lemma FailureStaysCoherent(b: Backend, l: Locale, watch: Watch, s: State, ev: Event)
    requires ev.Failed? && CoherentState(b, l, watch, s) && Possible(b, l, watch, s, ev)
    ensures CoherentState(b, l, watch, Next(s, ev))
  {
    LateRollbackIsCoherent(b, l, watch, s, ev.edit, ev.saved, ev.later);
  }

  lemma StepStaysCoherent(b: Backend, l: Locale, watch: Watch, s: State, ev: Event)
    requires CoherentState(b, l, watch, s) && Possible(b, l, watch, s, ev)
    ensures CoherentState(b, l, watch, Next(s, ev))
  {
    match ev
    case Refetched(_, _) => RefetchStaysCoherent(b, l, watch, s, ev);
    case FieldSet(_, _) => FieldStaysCoherent(b, l, watch, s, ev);
    case Added(_, _) => AdditionStaysCoherent(b, l, watch, s, ev);
    case Deleted(_) => DeletionStaysCoherent(b, l, watch, s, ev);
    case Failed(_, _, _) => FailureStaysCoherent(b, l, watch, s, ev);
    case _ => EditStaysCoherent(b, l, watch, s, ev);
  }

  lemma {:induction false} RunsStayCoherent(b: Backend, l: Locale, watch: Watch, s: State, events: seq<Event>)
    requires CoherentState(b, l, watch, s) && PossibleRun(b, l, watch, s, events)
    ensures CoherentState(b, l, watch, After(s, events))
  {
    if events == [] {
    } else {
      RunsStayCoherent(b, l, watch, s, events[..|events| - 1]);
      StepStaysCoherent(b, l, watch, After(s, events[..|events| - 1]), events[|events| - 1]);
    }
  }

  function Changes(ids: seq<string>, p: PartialIssue): seq<Event> {
    seq(|ids|, k requires 0 <= k < |ids| => Changed(ids[k], p))
  }

  lemma ChangedStep(s: State, id: string, p: PartialIssue)
    requires id in s.world
    ensures
      var r, ed := Next(s, Changed(id, p)), BatchEdit(s.entries, id, p);
      && r.entries == Applied(s.entries, ed)
      && r.stale == s.stale + StaleKeys(s.entries, ed)
      && r.world.Keys == s.world.Keys
  {
  }

  /** A batch is a run of changes: its entries and stale keys are the run's. */
  lemma {:induction false} BatchIsRun(s: State, ids: seq<string>, p: PartialIssue)
    requires forall id <- ids :: id in s.world
    ensures
      var r := After(s, Changes(ids, p));
      && r.entries == BatchApplied(s.entries, ids, p)
      && r.stale == s.stale + BatchStale(s.entries, ids, p)
      && r.world.Keys == s.world.Keys
  {
    if ids == [] {
    } else {
      var n := |ids| - 1;
      BatchIsRun(s, ids[..n], p);
      assert Changes(ids, p)[..n] == Changes(ids[..n], p);
      assert ids[n] in ids;
      ChangedStep(After(s, Changes(ids[..n], p)), ids[n], p);
    }
  }
}
