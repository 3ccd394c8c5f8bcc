/** What the chat store keeps and what its read and write functions make of it
    (packages/core/chat/store.ts, packages/core/drafts/draft-upload.ts). JSON text is
    the value it encodes. */
module DraftStorage {

  import opened IssueTypes

  datatype Attachment = Attachment(
    id: string,
    filename: string,
    url: string,
    downloadUrl: string,
    sizeBytes: nat,
    contentType: string
  )

  datatype PendingStatus = Uploading | Failed | Interrupted

  datatype DraftUpload =
    | Pending(clientUploadId: string, filename: string, size: nat, contentType: Option<string>,
              status: PendingStatus, error: Option<string>)
    | Uploaded(clientUploadId: string, filename: string, size: nat, contentType: Option<string>,
               attachment: Attachment)

  datatype Restore = Restore(id: string, content: string, attachments: Option<seq<Attachment>>, sessionId: string)

  /** The part of the store that is mirrored into storage. */
  datatype Memory = Memory(
    drafts: map<string, string>,
    uploads: map<string, seq<DraftUpload>>,
    applied: seq<string>,
    restores: map<string, seq<Restore>>
  )

  /** An element of a stored list; a bare attachment is the older format. */
  datatype StoredUpload = Entry(upload: DraftUpload) | BareAttachment(attachment: Attachment) | Unusable

  datatype StoredRestore = Queued(restore: Restore) | Malformed

  /** A storage key: removed, text that is no JSON of the expected kind, or a value. */
  datatype Slot<T> = Missing | Corrupt | Json(value: T)

  datatype Stored = Stored(
    drafts: Slot<map<string, string>>,
    uploads: Slot<map<string, seq<StoredUpload>>>,
    applied: Slot<seq<string>>,
    restores: Slot<map<string, seq<StoredRestore>>>
  )

  function At<T>(slots: map<string, seq<T>>, key: string): seq<T> {
    if key in slots then slots[key] else []
  }

  // Reading --------------------------------------------------------------------------

  function AttachmentToDraftUpload(a: Attachment): DraftUpload {
    Uploaded(if a.id != "" then a.id else a.url, a.filename, a.sizeBytes,
             if a.contentType != "" then Some(a.contentType) else None, a.(downloadUrl := ""))
  }

  predicate InFlight(u: DraftUpload) {
    u.Pending? && u.status == Uploading
  }

  function NormalizedItem(item: StoredUpload): seq<DraftUpload> {
    match item
    case Entry(u) => if InFlight(u) then [] else [u]
    case BareAttachment(a) => [AttachmentToDraftUpload(a)]
    case Unusable => []
  }

  function Normalized(raw: seq<StoredUpload>): seq<DraftUpload> {
    if raw == [] then [] else Normalized(raw[..|raw| - 1]) + NormalizedItem(raw[|raw| - 1])
  }

  /** What is kept: no upload in flight, every other entry, every bare attachment as
      an upload, and nothing else. */
  lemma {:induction false} NormalizedMembers(raw: seq<StoredUpload>)
    ensures forall u ::
      u in Normalized(raw)
      <==> (Entry(u) in raw && !InFlight(u))
           || exists a :: BareAttachment(a) in raw && u == AttachmentToDraftUpload(a)
  {
    if raw == [] {
    } else {
      var init, last := raw[..|raw| - 1], raw[|raw| - 1];
      NormalizedMembers(init);
      assert forall x :: x in raw <==> x in init || x == last by {
        assert raw == init + [last];
      }
    }
  }

  /** And in the order in which it was stored. */
  lemma {:induction false} NormalizedAppend(a: seq<StoredUpload>, b: seq<StoredUpload>)
    ensures Normalized(a + b) == Normalized(a) + Normalized(b)
  {
    if b == [] {
      assert a + b == a;
    } else {
      assert (a + b)[..|a + b| - 1] == a + b[..|b| - 1];
      NormalizedAppend(a, b[..|b| - 1]);
    }
  }

  method NormalizeStoredUploads(raw: seq<StoredUpload>) returns (out: seq<DraftUpload>)
    ensures out == Normalized(raw)
    ensures forall u <- out :: !InFlight(u)
    ensures forall u :: Entry(u) in raw && !InFlight(u) ==> u in out
    ensures forall a :: BareAttachment(a) in raw ==> AttachmentToDraftUpload(a) in out
  {
    out := [];
    for k := 0 to |raw|
      invariant out == Normalized(raw[..k])
    {
      assert raw[..k + 1][..k] == raw[..k];
      match raw[k] {
        case Entry(u) =>
          if !InFlight(u) {
            out := out + [u];
          }
        case BareAttachment(a) => out := out + [AttachmentToDraftUpload(a)];
        case Unusable =>
      }
    }
    assert raw[..|raw|] == raw;
    NormalizedMembers(raw);
  }

  function ReadDrafts(slot: Slot<map<string, string>>): map<string, string> {
    if slot.Json? then slot.value else map[]
  }

  function ReadUploads(slot: Slot<map<string, seq<StoredUpload>>>): map<string, seq<DraftUpload>> {
    if !slot.Json? then map[]
    else map k | k in slot.value && Normalized(slot.value[k]) != [] :: Normalized(slot.value[k])
  }

  /** readDraftAttachments: the lists that keep anything, one key at a time. */
  method ReadDraftAttachments(slot: Slot<map<string, seq<StoredUpload>>>) returns (out: map<string, seq<DraftUpload>>)
    ensures out == ReadUploads(slot)
  {
    out := map[];
    if !slot.Json? {
      return;
    }
    var left := slot.value.Keys;
    while left != {}
      invariant left <= slot.value.Keys
      invariant out ==
        map k | k in slot.value && k !in left && Normalized(slot.value[k]) != [] :: Normalized(slot.value[k])
      decreases left
    {
      var k :| k in left;
      var uploads := NormalizeStoredUploads(slot.value[k]);
      if |uploads| > 0 {
        out := out[k := uploads];
      }
      left := left - {k};
    }
  }

  function ReadApplied(slot: Slot<seq<string>>): seq<string> {
    if slot.Json? then slot.value else []
  }

  /** Absent attachments read as none. */
  function Saved(r: Restore): Restore {
    r.(attachments := Some(r.attachments.GetOr([])))
  }

  function ReadQueue(raw: seq<StoredRestore>): seq<Restore> {
    if raw == [] then []
    else ReadQueue(raw[..|raw| - 1])
         + (if raw[|raw| - 1].Queued? then [Saved(raw[|raw| - 1].restore)] else [])
  }

  function ReadRestores(slot: Slot<map<string, seq<StoredRestore>>>): map<string, seq<Restore>> {
    if !slot.Json? then map[]
    else map k | k in slot.value && ReadQueue(slot.value[k]) != [] :: ReadQueue(slot.value[k])
  }

  function ReadBack(stored: Stored): Memory {
    Memory(ReadDrafts(stored.drafts), ReadUploads(stored.uploads), ReadApplied(stored.applied),
           ReadRestores(stored.restores))
  }

  // Writing --------------------------------------------------------------------------

  function SavedDrafts(drafts: map<string, string>): map<string, string> {
    map k | k in drafts && drafts[k] != "" :: drafts[k]
  }

  function WrittenDrafts(drafts: map<string, string>): Slot<map<string, string>> {
    if SavedDrafts(drafts) == map[] then Missing else Json(SavedDrafts(drafts))
  }

  function Entries(uploads: seq<DraftUpload>): seq<StoredUpload> {
    seq(|uploads|, k requires 0 <= k < |uploads| => Entry(uploads[k]))
  }

  function WrittenUploads(uploads: map<string, seq<DraftUpload>>): Slot<map<string, seq<StoredUpload>>> {
    var pruned := map k | k in uploads && uploads[k] != [] :: Entries(uploads[k]);
    if pruned == map[] then Missing else Json(pruned)
  }

  function WrittenApplied(ids: seq<string>): Slot<seq<string>> {
    if ids == [] then Missing else Json(ids)
  }

  function QueueEntries(queue: seq<Restore>): seq<StoredRestore> {
    seq(|queue|, k requires 0 <= k < |queue| => Queued(queue[k]))
  }

  function WrittenRestores(queues: map<string, seq<Restore>>): Slot<map<string, seq<StoredRestore>>> {
    var pruned := map k | k in queues && queues[k] != [] :: QueueEntries(queues[k]);
    if pruned == map[] then Missing else Json(pruned)
  }

  /** The loop of writeDrafts: the non-empty drafts, one key at a time. */
  method PruneDrafts(drafts: map<string, string>) returns (pruned: map<string, string>)
    ensures pruned == SavedDrafts(drafts)
  {
    pruned := map[];
    var left := drafts.Keys;
    while left != {}
      invariant left <= drafts.Keys
      invariant pruned == map k | k in drafts && k !in left && drafts[k] != "" :: drafts[k]
      decreases left
    {
      var k :| k in left;
      if drafts[k] != "" {
        pruned := pruned[k := drafts[k]];
      }
      left := left - {k};
    }
  }

  // Round trip -----------------------------------------------------------------------

  function SavedUploads(uploads: seq<DraftUpload>): seq<DraftUpload> {
    if uploads == [] then []
    else SavedUploads(uploads[..|uploads| - 1])
         + (if InFlight(uploads[|uploads| - 1]) then [] else [uploads[|uploads| - 1]])
  }

  function SavedQueue(queue: seq<Restore>): seq<Restore> {
    seq(|queue|, k requires 0 <= k < |queue| => Saved(queue[k]))
  }

  function SavedSlots(uploads: map<string, seq<DraftUpload>>): map<string, seq<DraftUpload>> {
    map k | k in uploads && SavedUploads(uploads[k]) != [] :: SavedUploads(uploads[k])
  }

  function SavedRestores(restores: map<string, seq<Restore>>): map<string, seq<Restore>> {
    map k | k in restores && restores[k] != [] :: SavedQueue(restores[k])
  }

  /** What survives a restart: no empty drafts, no uploads in flight, no empty
      lists, and absent restore attachments as none. */
  function Persistent(m: Memory): Memory {
    Memory(SavedDrafts(m.drafts), SavedSlots(m.uploads), m.applied, SavedRestores(m.restores))
  }

  lemma {:induction false} NormalizedEntries(uploads: seq<DraftUpload>)
    ensures Normalized(Entries(uploads)) == SavedUploads(uploads)
  {
    if uploads == [] {
    } else {
      var init := uploads[..|uploads| - 1];
      NormalizedEntries(init);
      assert Entries(uploads)[..|uploads| - 1] == Entries(init);
    }
  }

  lemma {:induction false} ReadQueueEntries(queue: seq<Restore>)
    ensures ReadQueue(QueueEntries(queue)) == SavedQueue(queue)
  {
    if queue == [] {
    } else {
      var init := queue[..|queue| - 1];
      ReadQueueEntries(init);
      assert QueueEntries(queue)[..|queue| - 1] == QueueEntries(init);
      assert SavedQueue(queue) == SavedQueue(init) + [Saved(queue[|queue| - 1])];
    }
  }

  lemma DraftsRoundTrip(drafts: map<string, string>)
    ensures ReadDrafts(WrittenDrafts(drafts)) == SavedDrafts(drafts)
    ensures SavedDrafts(SavedDrafts(drafts)) == SavedDrafts(drafts)
  {
  }

  lemma UploadsRoundTrip(uploads: map<string, seq<DraftUpload>>)
    ensures ReadUploads(WrittenUploads(uploads)) == SavedSlots(uploads)
  {
    var pruned := map k | k in uploads && uploads[k] != [] :: Entries(uploads[k]);
    forall k | k in uploads
      ensures SavedUploads(uploads[k]) != [] ==> k in pruned
      ensures k in pruned ==> Normalized(pruned[k]) == SavedUploads(uploads[k])
    {
      NormalizedEntries(uploads[k]);
    }
    var read := ReadUploads(Json(pruned));
    assert read.Keys == SavedSlots(uploads).Keys;
    assert read == SavedSlots(uploads);
    assert WrittenUploads(uploads).Missing? ==> pruned == map[];
  }

  lemma RestoresRoundTrip(restores: map<string, seq<Restore>>)
    ensures ReadRestores(WrittenRestores(restores)) == SavedRestores(restores)
  {
    var pruned := map k | k in restores && restores[k] != [] :: QueueEntries(restores[k]);
    forall k | k in restores
      ensures ReadQueue(QueueEntries(restores[k])) == SavedQueue(restores[k])
    {
      ReadQueueEntries(restores[k]);
    }
    var read := ReadRestores(Json(pruned));
    assert forall k <- pruned :: |SavedQueue(restores[k])| == |restores[k]|;
    assert read.Keys == SavedRestores(restores).Keys;
    assert read == SavedRestores(restores);
    assert WrittenRestores(restores).Missing? ==> pruned == map[];
  }

  function Written(m: Memory): Stored {
    Stored(WrittenDrafts(m.drafts), WrittenUploads(m.uploads), WrittenApplied(m.applied), WrittenRestores(m.restores))
  }

  /** Reading back what was written loses exactly the volatile parts. */
  lemma WriteThenRead(m: Memory)
    ensures ReadBack(Written(m)) == Persistent(m)
  {
    DraftsRoundTrip(m.drafts);
    UploadsRoundTrip(m.uploads);
    RestoresRoundTrip(m.restores);
  }

  lemma {:induction false} SavedAppend(a: seq<DraftUpload>, b: seq<DraftUpload>)
    ensures SavedUploads(a + b) == SavedUploads(a) + SavedUploads(b)
  {
    if b == [] {
      assert a + b == a;
    } else {
      assert (a + b)[..|a + b| - 1] == a + b[..|b| - 1];
      SavedAppend(a, b[..|b| - 1]);
    }
  }

  lemma {:induction false} SavedTwice(uploads: seq<DraftUpload>)
    ensures SavedUploads(SavedUploads(uploads)) == SavedUploads(uploads)
  {
    if uploads == [] {
    } else {
      var init, last := uploads[..|uploads| - 1], uploads[|uploads| - 1];
      SavedTwice(init);
      SavedAppend(SavedUploads(init), if InFlight(last) then [] else [last]);
    }
  }

  lemma {:induction false} NormalizedIsSaved(raw: seq<StoredUpload>)
    ensures SavedUploads(Normalized(raw)) == Normalized(raw)
  {
    if raw == [] {
    } else {
      NormalizedIsSaved(raw[..|raw| - 1]);
      SavedAppend(Normalized(raw[..|raw| - 1]), NormalizedItem(raw[|raw| - 1]));
    }
  }

  lemma {:induction false} ReadQueueIsSaved(raw: seq<StoredRestore>)
    ensures SavedQueue(ReadQueue(raw)) == ReadQueue(raw)
  {
    if raw == [] {
    } else {
      ReadQueueIsSaved(raw[..|raw| - 1]);
    }
  }

  /** What is read is already free of volatile parts, but for empty drafts. */
  lemma ReadIsPersistent(stored: Stored)
    ensures
      var m := ReadBack(stored);
      Persistent(m) == m.(drafts := SavedDrafts(m.drafts))
  {
    if stored.uploads.Json? {
      var raw := stored.uploads.value;
      forall k | k in raw
        ensures SavedUploads(Normalized(raw[k])) == Normalized(raw[k])
      {
        NormalizedIsSaved(raw[k]);
      }
    }
    if stored.restores.Json? {
      var raw := stored.restores.value;
      forall k | k in raw
        ensures SavedQueue(ReadQueue(raw[k])) == ReadQueue(raw[k])
      {
        ReadQueueIsSaved(raw[k]);
      }
    }
    assert SavedSlots(ReadUploads(stored.uploads)) == ReadUploads(stored.uploads);
    assert SavedRestores(ReadRestores(stored.restores)) == ReadRestores(stored.restores);
  }

  lemma SlotsTwice(uploads: map<string, seq<DraftUpload>>)
    ensures SavedSlots(SavedSlots(uploads)) == SavedSlots(uploads)
  {
    forall k | k in uploads
      ensures SavedUploads(SavedUploads(uploads[k])) == SavedUploads(uploads[k])
    {
      SavedTwice(uploads[k]);
    }
  }

  lemma RestoresTwice(restores: map<string, seq<Restore>>)
    ensures SavedRestores(SavedRestores(restores)) == SavedRestores(restores)
  {
    forall k | k in restores
      ensures SavedQueue(SavedQueue(restores[k])) == SavedQueue(restores[k])
      ensures |SavedQueue(restores[k])| == |restores[k]|
    {
    }
  }

  // Legacy slots ---------------------------------------------------------------------

  const DRAFT_NEW_SESSION := "__new__"
  const LEGACY_NEW_SESSION_PREFIX := "__new__:"

  predicate IsLegacy(key: string) {
    LEGACY_NEW_SESSION_PREFIX <= key
  }

  function AgentSlot(agent: Option<string>): string {
    LEGACY_NEW_SESSION_PREFIX + agent.GetOr("")
  }

  /** The slots without the per-agent ones, of which the selected agent's becomes
      the new-chat slot if there is none. */
  function Migrated<T>(slots: map<string, T>, agent: Option<string>): map<string, T> {
    var adopted := AgentSlot(agent);
    var next :=
      if DRAFT_NEW_SESSION !in slots && adopted in slots then slots[DRAFT_NEW_SESSION := slots[adopted]] else slots;
    map k | k in next && !IsLegacy(k) :: next[k]
  }

  method MigrateLegacyNewChatSlots<T>(slots: map<string, T>, agent: Option<string>)
    returns (next: map<string, T>, changed: bool)
    ensures next == Migrated(slots, agent)
    ensures changed <==> exists k :: k in slots && IsLegacy(k)
  {
    var legacyKeys := set k | k in slots && IsLegacy(k);
    if legacyKeys == {} {
      assert forall k <- slots :: k !in legacyKeys;
      assert IsLegacy(AgentSlot(agent));
      return slots, false;
    }
    var one :| one in legacyKeys;
    next := slots;
    var adopted := AgentSlot(agent);
    if DRAFT_NEW_SESSION !in next && adopted in next {
      next := next[DRAFT_NEW_SESSION := next[adopted]];
    }
    ghost var taken := next;
    var left := legacyKeys;
    while left != {}
      invariant left <= legacyKeys
      invariant next == map k | k in taken && k !in legacyKeys - left :: taken[k]
      decreases left
    {
      var key :| key in left;
      next := next - {key};
      left := left - {key};
    }
    assert forall k <- taken :: k in legacyKeys <==> IsLegacy(k);
    return next, true;
  }

  /** Migrating again, for whatever agent, changes nothing. */
  lemma MigrationIsIdempotent<T>(slots: map<string, T>, agent: Option<string>, again: Option<string>)
    ensures Migrated(Migrated(slots, agent), again) == Migrated(slots, agent)
    ensures forall k :: k in Migrated(slots, agent) ==> !IsLegacy(k)
  {
    assert IsLegacy(AgentSlot(again));
  }

  /** No slot but the new-chat slot changes, and that one only when it was missing. */
  lemma MigrationKeeps<T>(slots: map<string, T>, agent: Option<string>, key: string)
    requires !IsLegacy(key)
    ensures key in slots ==> key in Migrated(slots, agent) && Migrated(slots, agent)[key] == slots[key]
    ensures
      key !in slots && key in Migrated(slots, agent) ==>
        key == DRAFT_NEW_SESSION && AgentSlot(agent) in slots && Migrated(slots, agent)[key] == slots[AgentSlot(agent)]
    ensures DRAFT_NEW_SESSION !in slots && AgentSlot(agent) in slots ==> DRAFT_NEW_SESSION in Migrated(slots, agent)
  {
    assert !IsLegacy(DRAFT_NEW_SESSION);
  }

  function Slotted<T>(slots: map<string, T>, key: string): Option<T> {
    if key in slots then Some(slots[key]) else None
  }

  /** The new chat opens with its own entry, or else with the selected agent's. */
  lemma NewChatOpensWith<T>(slots: map<string, T>, agent: Option<string>)
    ensures
      Slotted(Migrated(slots, agent), DRAFT_NEW_SESSION) ==
      if DRAFT_NEW_SESSION in slots then Some(slots[DRAFT_NEW_SESSION]) else Slotted(slots, AgentSlot(agent))
  {
    MigrationKeeps(slots, agent, DRAFT_NEW_SESSION);
  }

  /** The new chat's text and attachments after the migration are those one slot had
      before. */
  predicate FromSlot(m: Memory, agent: Option<string>, slot: string) {
    && Slotted(Migrated(m.drafts, agent), DRAFT_NEW_SESSION) == Slotted(m.drafts, slot)
    && Slotted(Migrated(m.uploads, agent), DRAFT_NEW_SESSION) == Slotted(m.uploads, slot)
  }

  /** Of the two halves of a draft the new chat has its own one and lacks the other,
      which the agent's slot fills in, and not from a draft with the same first half. */
  predicate Fills<T(==), U>(own: map<string, T>, other: map<string, U>, agent: Option<string>) {
    && DRAFT_NEW_SESSION in own && DRAFT_NEW_SESSION !in other && AgentSlot(agent) in other
    && Slotted(own, AgentSlot(agent)) != Some(own[DRAFT_NEW_SESSION])
  }

  /** Texts and attachments are adopted apart: one draft's text is joined with
      another's attachments exactly when the new chat had only one of the two and the
      agent's slot fills in the other. */
  lemma MigrationMixesIff(m: Memory, agent: Option<string>)
    ensures
      !FromSlot(m, agent, DRAFT_NEW_SESSION) && !FromSlot(m, agent, AgentSlot(agent))
      <==> Fills(m.drafts, m.uploads, agent) || Fills(m.uploads, m.drafts, agent)
  {
    NewChatOpensWith(m.drafts, agent);
    NewChatOpensWith(m.uploads, agent);
  }
}
