/** The queues of restores that failed sends leave behind
    (packages/core/chat/store.ts): first in, first out, over whole runs and
    restarts. */
module RestoreQueue {

  import opened ChatStore
  import opened DraftStorage
  import opened IssueTypes

  // What should be waiting -----------------------------------------------------------

  predicate Enqueues(a: Action, sessionId: string, id: string) {
    && a.EnqueuePendingSendRestore? && a.restore.sessionId == sessionId && a.restore.id == id
    && sessionId != "" && id != ""
  }

  predicate Dequeues(a: Action, sessionId: string, id: string) {
    a.DequeuePendingSendRestore? && a.sessionId == sessionId && a.restoreId == id
  }

  /** Step i enqueues and no step before n takes it out again. */
  predicate Open(run: seq<Action>, i: nat, n: nat, sessionId: string, id: string)
    requires n <= |run|
  {
    && i < n && Enqueues(run[i], sessionId, id)
    && forall k :: i < k < n ==> !Dequeues(run[k], sessionId, id)
  }

  /** Some step before n takes it out. */
  predicate TakenBefore(run: seq<Action>, n: nat, sessionId: string, id: string)
    requires n <= |run|
  {
    exists k :: 0 <= k < n && Dequeues(run[k], sessionId, id)
  }

  /** The restore was in the queue at the start and no step before n takes it out. */
  predicate KeptFrom(initial: seq<Restore>, run: seq<Action>, n: nat, sessionId: string, id: string)
    requires n <= |run|
  {
    HasRestore(initial, id) && !TakenBefore(run, n, sessionId, id)
  }

  /** Step i enqueues something that was not in the queue at the time and still is at
      n. */
  predicate Waiting(initial: seq<Restore>, run: seq<Action>, i: nat, n: nat, sessionId: string)
    requires n <= |run|
  {
    && i < n && run[i].EnqueuePendingSendRestore?
    && Open(run, i, n, sessionId, run[i].restore.id)
    && !KeptFrom(initial, run, i, sessionId, run[i].restore.id)
    && forall j :: 0 <= j < i ==> !Open(run, j, i, sessionId, run[i].restore.id)
  }

  /** What the first i steps put in and is waiting after n steps, in order of entry. */
  function WaitingList(initial: seq<Restore>, run: seq<Action>, i: nat, n: nat, sessionId: string): seq<Restore>
    requires i <= n <= |run|
  {
    if i == 0 then []
    else WaitingList(initial, run, i - 1, n, sessionId)
         + (if Waiting(initial, run, i - 1, n, sessionId) then [Saved(run[i - 1].restore)] else [])
  }

  /** What is left of the queue at the start after n steps. */
  function KeptList(initial: seq<Restore>, run: seq<Action>, n: nat, sessionId: string): seq<Restore>
    requires n <= |run|
  {
    if initial == [] then []
    else
      var last := initial[|initial| - 1];
      KeptList(initial[..|initial| - 1], run, n, sessionId)
      + (if TakenBefore(run, n, sessionId, last.id) then [] else [last])
  }

  /** The queue as it survives a restart. */
  function Queue(s: State, sessionId: string): seq<Restore> {
    SavedQueue(At(s.memory.restores, sessionId))
  }

  // One step -------------------------------------------------------------------------

  lemma {:induction false} WithoutSaved(queue: seq<Restore>, id: string)
    ensures SavedQueue(WithoutRestore(queue, id)) == WithoutRestore(SavedQueue(queue), id)
  {
    if queue == [] {
    } else {
      var init := queue[..|queue| - 1];
      WithoutSaved(init, id);
      assert SavedQueue(queue)[..|queue| - 1] == SavedQueue(init);
    }
  }

  lemma {:induction false} WithoutAbsent(queue: seq<Restore>, id: string)
    requires !HasRestore(queue, id)
    ensures WithoutRestore(queue, id) == queue
  {
    if queue == [] {
    } else {
      var init := queue[..|queue| - 1];
      assert forall k :: 0 <= k < |init| ==> init[k] == queue[k];
      WithoutAbsent(init, id);
      assert queue[|queue| - 1].id != id;
      assert queue == init + [queue[|queue| - 1]];
    }
  }

  lemma SavedHas(queue: seq<Restore>, id: string)
    ensures HasRestore(SavedQueue(queue), id) <==> HasRestore(queue, id)
  {
    assert forall k :: 0 <= k < |queue| ==> SavedQueue(queue)[k].id == queue[k].id;
  }

  lemma SavedAt(restores: map<string, seq<Restore>>, sessionId: string)
    ensures At(SavedRestores(restores), sessionId) == SavedQueue(At(restores, sessionId))
  {
  }

  lemma EnqueueStep(s: State, r: Restore, sessionId: string)
    ensures
      Queue(Next(s, EnqueuePendingSendRestore(r)), sessionId)
      == Queue(s, sessionId)
         + (if Enqueues(EnqueuePendingSendRestore(r), sessionId, r.id) && !HasRestore(Queue(s, sessionId), r.id)
            then [Saved(r)] else [])
  {
    var queue := At(s.memory.restores, sessionId);
    SavedHas(queue, r.id);
    assert SavedQueue(queue + [r]) == SavedQueue(queue) + [Saved(r)];
  }

  lemma DequeueStep(s: State, from: string, id: string, sessionId: string)
    ensures
      Queue(Next(s, DequeuePendingSendRestore(from, id)), sessionId)
      == if from == sessionId then WithoutRestore(Queue(s, sessionId), id) else Queue(s, sessionId)
  {
    var queue := At(s.memory.restores, sessionId);
    SavedHas(queue, id);
    WithoutSaved(queue, id);
    if !HasRestore(queue, id) {
      WithoutAbsent(SavedQueue(queue), id);
    }
  }

  lemma OtherStep(s: State, a: Action, sessionId: string)
    requires Mirrors(s) && !a.EnqueuePendingSendRestore? && !a.DequeuePendingSendRestore?
    ensures Queue(Next(s, a), sessionId) == Queue(s, sessionId)
  {
    if a.Rehydrate? {
      SavedAt(s.memory.restores, sessionId);
      SavedAt(ReadRestores(s.stored.restores), sessionId);
    }
  }

  // Every run ------------------------------------------------------------------------

  lemma {:induction false} StillWaiting(initial: seq<Restore>, run: seq<Action>, i: nat, n: nat, sessionId: string)
    requires i <= n < |run|
    requires run[n].DequeuePendingSendRestore? ==> run[n].sessionId != sessionId
    ensures WaitingList(initial, run, i, n + 1, sessionId) == WaitingList(initial, run, i, n, sessionId)
  {
    if i == 0 {
    } else {
      StillWaiting(initial, run, i - 1, n, sessionId);
      assert Waiting(initial, run, i - 1, n + 1, sessionId) <==> Waiting(initial, run, i - 1, n, sessionId);
    }
  }

  lemma {:induction false} TakenOut(initial: seq<Restore>, run: seq<Action>, i: nat, n: nat, sessionId: string)
    requires i <= n < |run|
    requires run[n].DequeuePendingSendRestore? && run[n].sessionId == sessionId
    ensures
      WaitingList(initial, run, i, n + 1, sessionId)
      == WithoutRestore(WaitingList(initial, run, i, n, sessionId), run[n].restoreId)
  {
    if i == 0 {
    } else {
      var before := WaitingList(initial, run, i - 1, n, sessionId);
      TakenOut(initial, run, i - 1, n, sessionId);
      if Waiting(initial, run, i - 1, n, sessionId) {
        var last := Saved(run[i - 1].restore);
        assert (before + [last])[..|before|] == before;
        assert Waiting(initial, run, i - 1, n + 1, sessionId) <==> last.id != run[n].restoreId;
      } else {
        assert !Waiting(initial, run, i - 1, n + 1, sessionId);
        assert before + [] == before;
      }
    }
  }

  lemma TakenStep(run: seq<Action>, n: nat, sessionId: string, id: string)
    requires n < |run|
    ensures
      TakenBefore(run, n + 1, sessionId, id)
      <==> TakenBefore(run, n, sessionId, id) || Dequeues(run[n], sessionId, id)
  {
  }

  lemma WithoutSnoc(queue: seq<Restore>, last: Restore, id: string)
    ensures
      WithoutRestore(queue + [last], id) == WithoutRestore(queue, id) + (if last.id == id then [] else [last])
  {
    assert (queue + [last])[..|queue|] == queue;
  }

  lemma {:induction false} KeptStep(initial: seq<Restore>, run: seq<Action>, n: nat, sessionId: string)
    requires n < |run|
    ensures
      KeptList(initial, run, n + 1, sessionId)
      == if run[n].DequeuePendingSendRestore? && run[n].sessionId == sessionId
         then WithoutRestore(KeptList(initial, run, n, sessionId), run[n].restoreId)
         else KeptList(initial, run, n, sessionId)
  {
    if initial == [] {
    } else {
      var init, last := initial[..|initial| - 1], initial[|initial| - 1];
      var before := KeptList(init, run, n, sessionId);
      KeptStep(init, run, n, sessionId);
      TakenStep(run, n, sessionId, last.id);
      if run[n].DequeuePendingSendRestore? {
        WithoutSnoc(before, last, run[n].restoreId);
      }
      assert before + [] == before;
    }
  }

  lemma {:induction false} InKeptList(initial: seq<Restore>, run: seq<Action>, n: nat, sessionId: string, id: string)
    requires n <= |run|
    ensures HasRestore(KeptList(initial, run, n, sessionId), id) <==> KeptFrom(initial, run, n, sessionId, id)
  {
    if initial == [] {
    } else {
      var init, last := initial[..|initial| - 1], initial[|initial| - 1];
      InKeptList(init, run, n, sessionId, id);
      assert initial == init + [last];
      HasInAppend(init, [last], id);
      assert [last][0] == last;
      if TakenBefore(run, n, sessionId, last.id) {
        assert KeptList(initial, run, n, sessionId) == KeptList(init, run, n, sessionId);
      } else {
        HasInAppend(KeptList(init, run, n, sessionId), [last], id);
      }
    }
  }

  lemma {:induction false} InWaitingList(
      initial: seq<Restore>, run: seq<Action>, i: nat, n: nat, sessionId: string, id: string)
    requires i <= n <= |run|
    ensures
      HasRestore(WaitingList(initial, run, i, n, sessionId), id)
      <==> exists j :: 0 <= j < i && Waiting(initial, run, j, n, sessionId) && run[j].restore.id == id
  {
    if i == 0 {
    } else {
      InWaitingList(initial, run, i - 1, n, sessionId, id);
      if Waiting(initial, run, i - 1, n, sessionId) {
        var last := Saved(run[i - 1].restore);
        HasInAppend(WaitingList(initial, run, i - 1, n, sessionId), [last], id);
        assert [last][0].id == run[i - 1].restore.id;
      } else {
        assert WaitingList(initial, run, i, n, sessionId) == WaitingList(initial, run, i - 1, n, sessionId);
      }
    }
  }

  lemma HasInAppend(a: seq<Restore>, b: seq<Restore>, id: string)
    ensures HasRestore(a + b, id) <==> HasRestore(a, id) || HasRestore(b, id)
  {
    assert forall k :: 0 <= k < |a| ==> (a + b)[k] == a[k];
    assert forall k :: 0 <= k < |b| ==> (a + b)[|a| + k] == b[k];
  }

  /** Behind every open step there is the restore itself: kept from the start, or
      waiting since another step. */
  lemma {:induction false} OpenIsThere(
      initial: seq<Restore>, run: seq<Action>, i: nat, n: nat, sessionId: string, id: string)
    requires n <= |run| && Open(run, i, n, sessionId, id)
    ensures
      || KeptFrom(initial, run, n, sessionId, id)
      || exists j :: 0 <= j <= i && Waiting(initial, run, j, n, sessionId) && run[j].restore.id == id
    decreases i
  {
    if j :| 0 <= j < i && Open(run, j, i, sessionId, id) {
      assert Open(run, j, n, sessionId, id);
      OpenIsThere(initial, run, j, n, sessionId, id);
    } else if !KeptFrom(initial, run, i, sessionId, id) {
      assert Waiting(initial, run, i, n, sessionId);
    }
  }

  /** The queue that should be there after n steps. */
  function Expected(initial: seq<Restore>, run: seq<Action>, n: nat, sessionId: string): seq<Restore>
    requires n <= |run|
  {
    KeptList(initial, run, n, sessionId) + WaitingList(initial, run, n, n, sessionId)
  }

  lemma NewlyWaiting(initial: seq<Restore>, run: seq<Action>, n: nat, sessionId: string)
    requires n < |run|
    ensures
      Waiting(initial, run, n, n + 1, sessionId)
      <==> run[n].EnqueuePendingSendRestore? && Enqueues(run[n], sessionId, run[n].restore.id)
           && !HasRestore(Expected(initial, run, n, sessionId), run[n].restore.id)
  {
    if run[n].EnqueuePendingSendRestore? {
      var id := run[n].restore.id;
      HasInAppend(KeptList(initial, run, n, sessionId), WaitingList(initial, run, n, n, sessionId), id);
      InKeptList(initial, run, n, sessionId, id);
      InWaitingList(initial, run, n, n, sessionId, id);
      if j :| 0 <= j < n && Open(run, j, n, sessionId, id) {
        OpenIsThere(initial, run, j, n, sessionId, id);
      }
    }
  }

  /** After any run, restarts included, each session's queue is exactly what is left of
      the queue at the start, followed by what was put in since and not taken out, in
      order of entry, nothing twice. */
  lemma {:induction false} FirstInFirstOut(s: State, run: seq<Action>, n: nat, sessionId: string)
    requires Mirrors(s) && n <= |run|
    ensures Mirrors(After(s, run[..n]))
    ensures Queue(After(s, run[..n]), sessionId) == Expected(Queue(s, sessionId), run, n, sessionId)
  {
    if n == 0 {
      assert run[..0] == [];
      AllKept(Queue(s, sessionId), run, sessionId);
      assert WaitingList(Queue(s, sessionId), run, 0, 0, sessionId) == [];
    } else {
      var a, before := run[n - 1], After(s, run[..n - 1]);
      FirstInFirstOut(s, run, n - 1, sessionId);
      assert run[..n][..n - 1] == run[..n - 1];
      assert After(s, run[..n]) == Next(before, a);
      StepMirrors(before, a);
      QueueStep(Queue(s, sessionId), before, a, run, n - 1, sessionId);
    }
  }

  lemma {:induction false} AllKept(initial: seq<Restore>, run: seq<Action>, sessionId: string)
    ensures KeptList(initial, run, 0, sessionId) == initial
  {
    if initial == [] {
    } else {
      var init, last := initial[..|initial| - 1], initial[|initial| - 1];
      AllKept(init, run, sessionId);
      assert !TakenBefore(run, 0, sessionId, last.id);
      assert initial == init + [last];
    }
  }

  lemma {:induction false} WithoutAppend(a: seq<Restore>, b: seq<Restore>, id: string)
    ensures WithoutRestore(a + b, id) == WithoutRestore(a, id) + WithoutRestore(b, id)
  {
    if b == [] {
      assert a + b == a;
    } else {
      assert (a + b)[..|a + b| - 1] == a + b[..|b| - 1];
      WithoutAppend(a, b[..|b| - 1], id);
    }
  }

  lemma QueueStep(initial: seq<Restore>, before: State, a: Action, run: seq<Action>, n: nat, sessionId: string)
    requires Mirrors(before) && n < |run| && run[n] == a
    requires Queue(before, sessionId) == Expected(initial, run, n, sessionId)
    ensures Queue(Next(before, a), sessionId) == Expected(initial, run, n + 1, sessionId)
  {
    NewlyWaiting(initial, run, n, sessionId);
    KeptStep(initial, run, n, sessionId);
    match a
    case EnqueuePendingSendRestore(r) =>
      EnqueueStep(before, r, sessionId);
      StillWaiting(initial, run, n, n, sessionId);
    case DequeuePendingSendRestore(from, id) =>
      DequeueStep(before, from, id, sessionId);
      if from == sessionId {
        TakenOut(initial, run, n, n, sessionId);
        WithoutAppend(KeptList(initial, run, n, sessionId), WaitingList(initial, run, n, n, sessionId), id);
      } else {
        StillWaiting(initial, run, n, n, sessionId);
      }
    case _ =>
      OtherStep(before, a, sessionId);
      StillWaiting(initial, run, n, n, sessionId);
  }

  // Non-empty and free of duplicates -------------------------------------------------

  predicate DistinctIds(queue: seq<Restore>) {
    forall j, k :: 0 <= j < k < |queue| ==> queue[j].id != queue[k].id
  }

  predicate QueuesGood(restores: map<string, seq<Restore>>) {
    forall k <- restores :: restores[k] != [] && DistinctIds(restores[k])
  }

  lemma {:induction false} WithoutKeepsDistinct(queue: seq<Restore>, id: string)
    requires DistinctIds(queue)
    ensures DistinctIds(WithoutRestore(queue, id))
    ensures forall r <- WithoutRestore(queue, id) :: r in queue
  {
    if queue == [] {
    } else {
      var init, last := queue[..|queue| - 1], queue[|queue| - 1];
      WithoutKeepsDistinct(init, id);
      assert forall r <- init :: r.id != last.id;
    }
  }

  lemma SavedDistinct(restores: map<string, seq<Restore>>)
    requires QueuesGood(restores)
    ensures QueuesGood(SavedRestores(restores))
  {
    forall k | k in SavedRestores(restores)
      ensures SavedQueue(restores[k]) != [] && DistinctIds(SavedQueue(restores[k]))
    {
      assert |SavedQueue(restores[k])| == |restores[k]|;
    }
  }

  lemma EnqueueKeepsGood(queues: map<string, seq<Restore>>, r: Restore)
    requires QueuesGood(queues) && !HasRestore(At(queues, r.sessionId), r.id)
    ensures QueuesGood(queues[r.sessionId := At(queues, r.sessionId) + [r]])
  {
  }

  lemma DequeueKeepsGood(queues: map<string, seq<Restore>>, sessionId: string, id: string)
    requires QueuesGood(queues)
    ensures QueuesGood(PutOrDelete(queues, sessionId, WithoutRestore(At(queues, sessionId), id)))
  {
    WithoutKeepsDistinct(At(queues, sessionId), id);
  }

  lemma ReloadKeepsGood(s: State, agent: Option<string>)
    requires Mirrors(s) && QueuesGood(s.memory.restores)
    ensures QueuesGood(Loaded(s.stored, agent).memory.restores)
  {
    ReadIsPersistent(s.stored);
    SavedDistinct(s.memory.restores);
  }

  lemma StepKeepsQueuesGood(s: State, a: Action)
    requires Mirrors(s) && QueuesGood(s.memory.restores)
    ensures QueuesGood(Next(s, a).memory.restores)
  {
    match a
    case DequeuePendingSendRestore(sessionId, id) => DequeueKeepsGood(s.memory.restores, sessionId, id);
    case EnqueuePendingSendRestore(r) =>
      if !HasRestore(At(s.memory.restores, r.sessionId), r.id) {
        EnqueueKeepsGood(s.memory.restores, r);
      }
    case Rehydrate(agent) => ReloadKeepsGood(s, agent);
    case _ =>
  }

  /** In every run from any storage, queues that start non-empty and without
      duplicates stay so. */
  lemma {:induction false} RunsKeepQueuesGood(stored: Stored, agent: Option<string>, run: seq<Action>)
    requires QueuesGood(ReadRestores(stored.restores))
    ensures QueuesGood(After(Loaded(stored, agent), run).memory.restores)
  {
    if run == [] {
    } else {
      var before := run[..|run| - 1];
      RunsKeepQueuesGood(stored, agent, before);
      RunsMirror(stored, agent, before);
      StepKeepsQueuesGood(After(Loaded(stored, agent), before), run[|run| - 1]);
    }
  }
}
