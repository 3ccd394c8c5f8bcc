/** The actions of the chat store on drafts, draft uploads and pending restores
    (packages/core/chat/store.ts), for one workspace. */
module ChatStore {

  import opened DraftStorage
  import opened IssueTypes
  import opened Whitespace

  datatype State = State(memory: Memory, stored: Stored)

  datatype Action =
    | SetInputDraft(key: string, draft: string)
    | AppendToInputDraft(key: string, markdown: string)
    | SetInputDraftAttachments(key: string, uploads: seq<DraftUpload>)
    | AddInputDraftAttachment(key: string, attachment: Attachment)
    | AddInputDraftUpload(key: string, upload: DraftUpload)
    | SettleInputDraftUpload(key: string, clientUploadId: string, attachment: Attachment)
    | FailInputDraftUpload(key: string, clientUploadId: string, error: Option<string>)
    | RemoveInputDraftUpload(key: string, clientUploadId: string)
    | ClearInputDraft(key: string)
    | MarkDraftRestoreApplied(restoreId: string)
    | ForgetDraftRestoreApplied(restoreId: string)
    | EnqueuePendingSendRestore(restore: Restore)
    | DequeuePendingSendRestore(sessionId: string, restoreId: string)
    | Rehydrate(agent: Option<string>)

  // Lists ----------------------------------------------------------------------------

  predicate HoldsAttachment(u: DraftUpload, id: string) {
    u.Uploaded? && u.attachment.id == id
  }

  function Attached(uploads: seq<DraftUpload>, a: Attachment): seq<DraftUpload> {
    if exists k :: 0 <= k < |uploads| && HoldsAttachment(uploads[k], a.id) then
      seq(|uploads|, k requires 0 <= k < |uploads| =>
        if HoldsAttachment(uploads[k], a.id) then AttachmentToDraftUpload(a) else uploads[k])
    else
      uploads + [AttachmentToDraftUpload(a)]
  }

  predicate HasUpload(uploads: seq<DraftUpload>, id: string) {
    exists k :: 0 <= k < |uploads| && uploads[k].clientUploadId == id
  }

  function FindUpload(uploads: seq<DraftUpload>, id: string): (u: DraftUpload)
    requires HasUpload(uploads, id)
    ensures u.clientUploadId == id
  {
    if uploads[0].clientUploadId == id then uploads[0] else FindUpload(uploads[1..], id)
  }

  function Replaced(uploads: seq<DraftUpload>, id: string, replacement: DraftUpload): seq<DraftUpload> {
    seq(|uploads|, k requires 0 <= k < |uploads| => if uploads[k].clientUploadId == id then replacement else uploads[k])
  }

  function WithoutUpload(uploads: seq<DraftUpload>, id: string): seq<DraftUpload> {
    if uploads == [] then []
    else (if uploads[0].clientUploadId == id then [] else [uploads[0]]) + WithoutUpload(uploads[1..], id)
  }

  function WithoutId(ids: seq<string>, id: string): seq<string> {
    if ids == [] then [] else (if ids[0] == id then [] else [ids[0]]) + WithoutId(ids[1..], id)
  }

  predicate HasRestore(queue: seq<Restore>, id: string) {
    exists k :: 0 <= k < |queue| && queue[k].id == id
  }

  function WithoutRestore(queue: seq<Restore>, id: string): seq<Restore> {
    if queue == [] then []
    else WithoutRestore(queue[..|queue| - 1], id)
         + (if queue[|queue| - 1].id == id then [] else [queue[|queue| - 1]])
  }

  /** A map entry that disappears with its last element. */
  function PutOrDelete<T>(slots: map<string, seq<T>>, key: string, list: seq<T>): map<string, seq<T>> {
    if list != [] then slots[key := list] else slots - {key}
  }

  function Appended(existing: string, markdown: string): string {
    if Blank(existing) then markdown else TrimEnd(existing) + "\n\n" + markdown
  }

  function Settled(id: string, a: Attachment): DraftUpload {
    AttachmentToDraftUpload(a).(clientUploadId := id)
  }

  function FailedUpload(u: DraftUpload, error: Option<string>): DraftUpload {
    Pending(u.clientUploadId, u.filename, u.size, u.contentType, Failed, error)
  }

  // Steps ----------------------------------------------------------------------------

  function WithDrafts(s: State, drafts: map<string, string>): State {
    State(s.memory.(drafts := drafts), s.stored.(drafts := WrittenDrafts(drafts)))
  }

  function WithUploads(s: State, uploads: map<string, seq<DraftUpload>>): State {
    State(s.memory.(uploads := uploads), s.stored.(uploads := WrittenUploads(uploads)))
  }

  function WithApplied(s: State, ids: seq<string>): State {
    State(s.memory.(applied := ids), s.stored.(applied := WrittenApplied(ids)))
  }

  function WithRestores(s: State, restores: map<string, seq<Restore>>): State {
    State(s.memory.(restores := restores), s.stored.(restores := WrittenRestores(restores)))
  }

  predicate HasLegacy<T>(slots: map<string, T>) {
    exists k :: k in slots && IsLegacy(k)
  }

  /** Reading a workspace: the slots are migrated, and written back when that changed
      anything. */
  function Loaded(stored: Stored, agent: Option<string>): State {
    var m := ReadBack(stored);
    var drafts, uploads := Migrated(m.drafts, agent), Migrated(m.uploads, agent);
    State(m.(drafts := drafts, uploads := uploads),
          stored.(drafts := if HasLegacy(m.drafts) then WrittenDrafts(drafts) else stored.drafts,
                  uploads := if HasLegacy(m.uploads) then WrittenUploads(uploads) else stored.uploads))
  }

  function Next(s: State, a: Action): State {
    var m := s.memory;
    match a
    case SetInputDraft(key, draft) => WithDrafts(s, m.drafts[key := draft])
    case AppendToInputDraft(key, markdown) =>
      WithDrafts(s, m.drafts[key := Appended(if key in m.drafts then m.drafts[key] else "", markdown)])
    case SetInputDraftAttachments(key, uploads) => WithUploads(s, PutOrDelete(m.uploads, key, uploads))
    case AddInputDraftAttachment(key, attachment) =>
      if attachment.id == "" then s
      else WithUploads(s, m.uploads[key := Attached(At(m.uploads, key), attachment)])
    case AddInputDraftUpload(key, upload) =>
      if HasUpload(At(m.uploads, key), upload.clientUploadId) then s
      else WithUploads(s, m.uploads[key := At(m.uploads, key) + [upload]])
    case SettleInputDraftUpload(key, id, attachment) =>
      if !HasUpload(At(m.uploads, key), id) then s
      else WithUploads(s, m.uploads[key := Replaced(At(m.uploads, key), id, Settled(id, attachment))])
    case FailInputDraftUpload(key, id, error) =>
      if !HasUpload(At(m.uploads, key), id) then s
      else
        var failed := FailedUpload(FindUpload(At(m.uploads, key), id), error);
        WithUploads(s, m.uploads[key := Replaced(At(m.uploads, key), id, failed)])
    case RemoveInputDraftUpload(key, id) =>
      if !HasUpload(At(m.uploads, key), id) then s
      else WithUploads(s, PutOrDelete(m.uploads, key, WithoutUpload(At(m.uploads, key), id)))
    case ClearInputDraft(key) =>
      if key !in m.drafts && key !in m.uploads then s
      else WithUploads(WithDrafts(s, m.drafts - {key}), m.uploads - {key})
    case MarkDraftRestoreApplied(id) => if id in m.applied then s else WithApplied(s, m.applied + [id])
    case ForgetDraftRestoreApplied(id) => if id !in m.applied then s else WithApplied(s, WithoutId(m.applied, id))
    case EnqueuePendingSendRestore(r) =>
      if r.sessionId == "" || r.id == "" || HasRestore(At(m.restores, r.sessionId), r.id) then s
      else WithRestores(s, m.restores[r.sessionId := At(m.restores, r.sessionId) + [r]])
    case DequeuePendingSendRestore(sessionId, id) =>
      if !HasRestore(At(m.restores, sessionId), id) then s
      else WithRestores(s, PutOrDelete(m.restores, sessionId, WithoutRestore(At(m.restores, sessionId), id)))
    case Rehydrate(agent) => Loaded(s.stored, agent)
  }

  function After(s: State, run: seq<Action>): State {
    if run == [] then s else Next(After(s, run[..|run| - 1]), run[|run| - 1])
  }

  // Storage mirrors memory -----------------------------------------------------------

  /** Storage holds whatever of the memory would survive a restart. */
  predicate Mirrors(s: State) {
    Persistent(ReadBack(s.stored)) == Persistent(s.memory)
  }

  predicate NoEmptyDraft(stored: Stored) {
    forall k :: k in ReadDrafts(stored.drafts) ==> ReadDrafts(stored.drafts)[k] != ""
  }

  lemma WritingMirrors(s: State, drafts: map<string, string>, uploads: map<string, seq<DraftUpload>>,
                       ids: seq<string>, restores: map<string, seq<Restore>>)
    requires Mirrors(s)
    ensures Mirrors(WithDrafts(s, drafts)) && NoEmptyDraft(WithDrafts(s, drafts).stored)
    ensures Mirrors(WithUploads(s, uploads))
    ensures Mirrors(WithApplied(s, ids))
    ensures Mirrors(WithRestores(s, restores))
  {
    DraftsRoundTrip(drafts);
    UploadsRoundTrip(uploads);
    SlotsTwice(uploads);
    RestoresRoundTrip(restores);
    RestoresTwice(restores);
  }

  lemma LoadingMirrors(stored: Stored, agent: Option<string>)
    ensures Mirrors(Loaded(stored, agent))
    ensures NoEmptyDraft(stored) ==> NoEmptyDraft(Loaded(stored, agent).stored)
  {
    var m := ReadBack(stored);
    var drafts, uploads := Migrated(m.drafts, agent), Migrated(m.uploads, agent);
    NothingToMigrate(m.drafts, agent);
    NothingToMigrate(m.uploads, agent);
    DraftsRoundTrip(drafts);
    UploadsRoundTrip(uploads);
    SlotsTwice(uploads);
  }

  lemma NothingToMigrate<T>(slots: map<string, T>, agent: Option<string>)
    ensures !HasLegacy(slots) ==> Migrated(slots, agent) == slots
  {
    assert IsLegacy(AgentSlot(agent));
  }

  /** Every action but a reload writes one slot, or both of a draft, or nothing. */
  lemma ActionsWrite(s: State, a: Action)
    requires !a.Rehydrate?
    ensures
      var next := Next(s, a);
      || next == s
      || next == WithDrafts(s, next.memory.drafts)
      || next == WithUploads(s, next.memory.uploads)
      || next == WithApplied(s, next.memory.applied)
      || next == WithRestores(s, next.memory.restores)
      || next == WithUploads(WithDrafts(s, next.memory.drafts), next.memory.uploads)
  {
  }

  lemma WriteStepMirrors(s: State, next: State)
    requires Mirrors(s)
    requires
      || next == s
      || next == WithDrafts(s, next.memory.drafts)
      || next == WithUploads(s, next.memory.uploads)
      || next == WithApplied(s, next.memory.applied)
      || next == WithRestores(s, next.memory.restores)
      || next == WithUploads(WithDrafts(s, next.memory.drafts), next.memory.uploads)
    ensures Mirrors(next) && (NoEmptyDraft(s.stored) ==> NoEmptyDraft(next.stored))
  {
    var m := next.memory;
    WritingMirrors(s, m.drafts, m.uploads, m.applied, m.restores);
    WritingMirrors(WithDrafts(s, m.drafts), m.drafts, m.uploads, m.applied, m.restores);
  }

  lemma StepMirrors(s: State, a: Action)
    requires Mirrors(s)
    ensures Mirrors(Next(s, a))
    ensures NoEmptyDraft(s.stored) ==> NoEmptyDraft(Next(s, a).stored)
  {
    if a.Rehydrate? {
      LoadingMirrors(s.stored, a.agent);
    } else {
      ActionsWrite(s, a);
      WriteStepMirrors(s, Next(s, a));
    }
  }

  lemma {:induction false} RunsMirror(stored: Stored, agent: Option<string>, run: seq<Action>)
    ensures Mirrors(After(Loaded(stored, agent), run))
    ensures NoEmptyDraft(stored) ==> NoEmptyDraft(After(Loaded(stored, agent), run).stored)
  {
    if run == [] {
      LoadingMirrors(stored, agent);
    } else {
      RunsMirror(stored, agent, run[..|run| - 1]);
      StepMirrors(After(Loaded(stored, agent), run[..|run| - 1]), run[|run| - 1]);
    }
  }

  /** In every run from any storage, reading back gives the memory minus its volatile
      parts exactly when no empty draft is stored; the store itself never stores one. */
  lemma ReadBackIsMemoryIff(stored: Stored, agent: Option<string>, run: seq<Action>)
    ensures
      var s := After(Loaded(stored, agent), run);
      && (ReadBack(s.stored) == Persistent(s.memory) <==> NoEmptyDraft(s.stored))
      && (NoEmptyDraft(stored) ==> NoEmptyDraft(s.stored))
  {
    var s := After(Loaded(stored, agent), run);
    RunsMirror(stored, agent, run);
    ReadIsPersistent(s.stored);
    assert NoEmptyDraft(s.stored) <==> SavedDrafts(ReadDrafts(s.stored.drafts)) == ReadDrafts(s.stored.drafts);
  }

  /** Loading twice, for whatever agents, changes neither storage nor what persists. */
  lemma LoadIsIdempotent(stored: Stored, agent: Option<string>, again: Option<string>)
    ensures
      var once := Loaded(stored, agent);
      var twice := Loaded(once.stored, again);
      twice.stored == once.stored && Persistent(twice.memory) == Persistent(once.memory)
  {
    var m, once := ReadBack(stored), Loaded(stored, agent);
    LoadingMirrors(stored, agent);
    LoadingMirrors(once.stored, again);
    NoLegacyLeft(m.drafts, agent);
    NoLegacyLeft(m.uploads, agent);
    DraftsRoundTrip(once.memory.drafts);
    UploadsRoundTrip(once.memory.uploads);
    assert !HasLegacy(ReadDrafts(once.stored.drafts));
    assert !HasLegacy(ReadUploads(once.stored.uploads));
  }

  lemma NoLegacyLeft<T>(slots: map<string, T>, agent: Option<string>)
    ensures !HasLegacy(Migrated(slots, agent))
  {
    MigrationIsIdempotent(slots, agent, agent);
  }

  // Uploads --------------------------------------------------------------------------

  lemma {:induction false} RemovedIsGone(uploads: seq<DraftUpload>, id: string)
    ensures !HasUpload(WithoutUpload(uploads, id), id)
    ensures forall u :: u in WithoutUpload(uploads, id) <==> u in uploads && u.clientUploadId != id
  {
    if uploads == [] {
    } else {
      RemovedIsGone(uploads[1..], id);
      assert uploads == [uploads[0]] + uploads[1..];
      assert forall u <- WithoutUpload(uploads, id) :: u.clientUploadId != id;
    }
  }

  /** A result that arrives after its upload was removed is dropped, so a removed
      upload does not come back. */
  lemma LateResultIsDropped(s: State, key: string, id: string, a: Attachment, error: Option<string>)
    ensures
      var removed := Next(s, RemoveInputDraftUpload(key, id));
      && Next(removed, SettleInputDraftUpload(key, id, a)) == removed
      && Next(removed, FailInputDraftUpload(key, id, error)) == removed
  {
    RemovedIsGone(At(s.memory.uploads, key), id);
  }

  lemma StoredAt(s: State, uploads: map<string, seq<DraftUpload>>, key: string)
    ensures At(ReadBack(WithUploads(s, uploads).stored).uploads, key) == SavedUploads(At(uploads, key))
  {
    UploadsRoundTrip(uploads);
  }

  lemma SettledInPlace(before: seq<DraftUpload>, u: DraftUpload, settled: DraftUpload)
    requires !HasUpload(before, u.clientUploadId)
    ensures HasUpload(before + [u], u.clientUploadId)
    ensures Replaced(before + [u], u.clientUploadId, settled) == before + [settled]
  {
    assert (before + [u])[|before|].clientUploadId == u.clientUploadId;
  }

  /** An upload is written at once. */
  lemma UploadIsWritten(s: State, key: string, u: DraftUpload)
    requires !HasUpload(At(s.memory.uploads, key), u.clientUploadId)
    ensures
      var stored := Next(s, AddInputDraftUpload(key, u)).stored.uploads;
      stored.Json? && key in stored.value && Entry(u) in stored.value[key]
  {
    var before := At(s.memory.uploads, key);
    var uploads := s.memory.uploads[key := before + [u]];
    assert Next(s, AddInputDraftUpload(key, u)) == WithUploads(s, uploads);
    var pruned := map k | k in uploads && uploads[k] != [] :: Entries(uploads[k]);
    assert key in pruned;
    assert Entry(u) == Entries(uploads[key])[|before|];
  }

  /** But it is not read back while in flight; it is, behind the others, once its result
      has arrived. */
  lemma SettledUploadIsReadBack(s: State, key: string, u: DraftUpload, a: Attachment)
    requires !HasUpload(At(s.memory.uploads, key), u.clientUploadId) && InFlight(u)
    ensures
      var id := u.clientUploadId;
      var added := Next(s, AddInputDraftUpload(key, u));
      var settled := Next(added, SettleInputDraftUpload(key, id, a));
      && At(ReadBack(added.stored).uploads, key) == SavedUploads(At(s.memory.uploads, key))
      && At(ReadBack(settled.stored).uploads, key) == SavedUploads(At(s.memory.uploads, key)) + [Settled(id, a)]
  {
    var id, before := u.clientUploadId, At(s.memory.uploads, key);
    var uploads := s.memory.uploads[key := before + [u]];
    var added := WithUploads(s, uploads);
    assert Next(s, AddInputDraftUpload(key, u)) == added;
    SettledInPlace(before, u, Settled(id, a));
    SettlesTo(added, key, id, a, before + [Settled(id, a)]);
    StoredAt(s, uploads, key);
    StoredAt(added, uploads[key := before + [Settled(id, a)]], key);
    SavedAppend(before, [u]);
    SavedAppend(before, [Settled(id, a)]);
  }

  lemma SettlesTo(s: State, key: string, id: string, a: Attachment, settled: seq<DraftUpload>)
    requires HasUpload(At(s.memory.uploads, key), id)
    requires Replaced(At(s.memory.uploads, key), id, Settled(id, a)) == settled
    ensures Next(s, SettleInputDraftUpload(key, id, a)) == WithUploads(s, s.memory.uploads[key := settled])
  {
  }

  // The store ------------------------------------------------------------------------

  /** The storage keys of the workspace. */
  class Storage {
    var drafts: Slot<map<string, string>>
    var uploads: Slot<map<string, seq<StoredUpload>>>
    var applied: Slot<seq<string>>
    var restores: Slot<map<string, seq<StoredRestore>>>

    constructor (stored: Stored)
      ensures Contents() == stored
    {
      drafts, uploads, applied, restores := stored.drafts, stored.uploads, stored.applied, stored.restores;
    }

    function Contents(): Stored
      reads this
    {
      Stored(drafts, uploads, applied, restores)
    }

    method WriteDrafts(next: map<string, string>)
      modifies this`drafts
      ensures drafts == WrittenDrafts(next)
    {
      var pruned := PruneDrafts(next);
      drafts := if pruned == map[] then Missing else Json(pruned);
    }
  }

  class Store {
    const storage: Storage
    var inputDrafts: map<string, string>
    var inputDraftAttachments: map<string, seq<DraftUpload>>
    var appliedDraftRestoreIds: seq<string>
    var pendingSendRestores: map<string, seq<Restore>>

    function Model(): State
      reads this, storage
    {
      State(Memory(inputDrafts, inputDraftAttachments, appliedDraftRestoreIds, pendingSendRestores), storage.Contents())
    }

    constructor (storage: Storage, agent: Option<string>)
      modifies storage
      ensures this.storage == storage && Model() == Loaded(old(storage.Contents()), agent)
    {
      this.storage := storage;
      inputDrafts, inputDraftAttachments, appliedDraftRestoreIds, pendingSendRestores := map[], map[], [], map[];
      new;
      Load(agent);
    }

    /** The reading half of the constructor and of the rehydration callback. */
    method Load(agent: Option<string>)
      modifies this, storage
      ensures Model() == Loaded(old(storage.Contents()), agent)
    {
      var drafts, draftsChanged := MigrateLegacyNewChatSlots(ReadDrafts(storage.drafts), agent);
      var stored := ReadDraftAttachments(storage.uploads);
      var uploads, uploadsChanged := MigrateLegacyNewChatSlots(stored, agent);
      if draftsChanged {
        storage.WriteDrafts(drafts);
      }
      if uploadsChanged {
        storage.uploads := WrittenUploads(uploads);
      }
      inputDrafts, inputDraftAttachments := drafts, uploads;
      appliedDraftRestoreIds := ReadApplied(storage.applied);
      pendingSendRestores := ReadRestores(storage.restores);
    }

    method SetInputDraft(key: string, draft: string)
      modifies this, storage
      ensures Model() == Next(old(Model()), Action.SetInputDraft(key, draft))
    {
      var next := inputDrafts[key := draft];
      storage.WriteDrafts(next);
      inputDrafts := next;
    }

    method AppendToInputDraft(key: string, markdown: string)
      modifies this, storage
      ensures Model() == Next(old(Model()), Action.AppendToInputDraft(key, markdown))
    {
      var existing := if key in inputDrafts then inputDrafts[key] else "";
      var draft := if !Blank(existing) then TrimEnd(existing) + "\n\n" + markdown else markdown;
      var next := inputDrafts[key := draft];
      storage.WriteDrafts(next);
      inputDrafts := next;
    }

    method SetInputDraftAttachments(key: string, uploads: seq<DraftUpload>)
      modifies this, storage
      ensures Model() == Next(old(Model()), Action.SetInputDraftAttachments(key, uploads))
    {
      var next := inputDraftAttachments;
      if |uploads| > 0 {
        next := next[key := uploads];
      } else {
        next := next - {key};
      }
      storage.uploads := WrittenUploads(next);
      inputDraftAttachments := next;
    }

    method AddInputDraftAttachment(key: string, attachment: Attachment)
      modifies this, storage
      ensures Model() == Next(old(Model()), Action.AddInputDraftAttachment(key, attachment))
    {
      if attachment.id == "" {
        return;
      }
      var next := inputDraftAttachments[key := Attached(At(inputDraftAttachments, key), attachment)];
      storage.uploads := WrittenUploads(next);
      inputDraftAttachments := next;
    }

    method AddInputDraftUpload(key: string, upload: DraftUpload)
      modifies this, storage
      ensures Model() == Next(old(Model()), Action.AddInputDraftUpload(key, upload))
    {
      var existing := At(inputDraftAttachments, key);
      if HasUpload(existing, upload.clientUploadId) {
        return;
      }
      var next := inputDraftAttachments[key := existing + [upload]];
      storage.uploads := WrittenUploads(next);
      inputDraftAttachments := next;
    }

    method SettleInputDraftUpload(key: string, clientUploadId: string, attachment: Attachment)
      modifies this, storage
      ensures Model() == Next(old(Model()), Action.SettleInputDraftUpload(key, clientUploadId, attachment))
    {
      var existing := At(inputDraftAttachments, key);
      if !HasUpload(existing, clientUploadId) {
        return;
      }
      var next := inputDraftAttachments[key := Replaced(existing, clientUploadId, Settled(clientUploadId, attachment))];
      storage.uploads := WrittenUploads(next);
      inputDraftAttachments := next;
    }

    method FailInputDraftUpload(key: string, clientUploadId: string, error: Option<string>)
      modifies this, storage
      ensures Model() == Next(old(Model()), Action.FailInputDraftUpload(key, clientUploadId, error))
    {
      var existing := At(inputDraftAttachments, key);
      if !HasUpload(existing, clientUploadId) {
        return;
      }
      var target := FindUpload(existing, clientUploadId);
      var next := inputDraftAttachments[key := Replaced(existing, clientUploadId, FailedUpload(target, error))];
      storage.uploads := WrittenUploads(next);
      inputDraftAttachments := next;
    }

    method RemoveInputDraftUpload(key: string, clientUploadId: string)
      modifies this, storage
      ensures Model() == Next(old(Model()), Action.RemoveInputDraftUpload(key, clientUploadId))
    {
      var existing := At(inputDraftAttachments, key);
      if !HasUpload(existing, clientUploadId) {
        return;
      }
      var remaining := WithoutUpload(existing, clientUploadId);
      var next := inputDraftAttachments;
      if |remaining| > 0 {
        next := next[key := remaining];
      } else {
        next := next - {key};
      }
      storage.uploads := WrittenUploads(next);
      inputDraftAttachments := next;
    }

    method ClearInputDraft(key: string)
      modifies this, storage
      ensures Model() == Next(old(Model()), Action.ClearInputDraft(key))
    {
      if key !in inputDrafts && key !in inputDraftAttachments {
        return;
      }
      var nextDrafts, nextAttachments := inputDrafts - {key}, inputDraftAttachments - {key};
      storage.WriteDrafts(nextDrafts);
      storage.uploads := WrittenUploads(nextAttachments);
      inputDrafts, inputDraftAttachments := nextDrafts, nextAttachments;
    }

    method MarkDraftRestoreApplied(restoreId: string)
      modifies this, storage
      ensures Model() == Next(old(Model()), Action.MarkDraftRestoreApplied(restoreId))
    {
      if restoreId in appliedDraftRestoreIds {
        return;
      }
      var next := appliedDraftRestoreIds + [restoreId];
      storage.applied := WrittenApplied(next);
      appliedDraftRestoreIds := next;
    }

    method ForgetDraftRestoreApplied(restoreId: string)
      modifies this, storage
      ensures Model() == Next(old(Model()), Action.ForgetDraftRestoreApplied(restoreId))
    {
      if restoreId !in appliedDraftRestoreIds {
        return;
      }
      var next := WithoutId(appliedDraftRestoreIds, restoreId);
      storage.applied := WrittenApplied(next);
      appliedDraftRestoreIds := next;
    }

    method EnqueuePendingSendRestore(restore: Restore)
      modifies this, storage
      ensures Model() == Next(old(Model()), Action.EnqueuePendingSendRestore(restore))
    {
      if restore.sessionId == "" || restore.id == "" {
        return;
      }
      var existing := At(pendingSendRestores, restore.sessionId);
      if HasRestore(existing, restore.id) {
        return;
      }
      var next := pendingSendRestores[restore.sessionId := existing + [restore]];
      storage.restores := WrittenRestores(next);
      pendingSendRestores := next;
    }

    method DequeuePendingSendRestore(sessionId: string, restoreId: string)
      modifies this, storage
      ensures Model() == Next(old(Model()), Action.DequeuePendingSendRestore(sessionId, restoreId))
    {
      var existing := At(pendingSendRestores, sessionId);
      if !HasRestore(existing, restoreId) {
        return;
      }
      var remaining := WithoutRestore(existing, restoreId);
      var next := pendingSendRestores;
      if |remaining| > 0 {
        next := next[sessionId := remaining];
      } else {
        next := next - {sessionId};
      }
      storage.restores := WrittenRestores(next);
      pendingSendRestores := next;
    }
  }
}
