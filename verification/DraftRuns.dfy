/** What the chat store holds after any run of its actions: the draft text and the
    attachments of every slot, and the applied restores
    (packages/core/chat/store.ts). */
module DraftRuns {
  import opened IssueTypes
  import opened Whitespace
  import opened Selection
  import opened DraftStorage
  import opened ChatStore

  // Lists ------------------------------------------------------------------------------

  /** An addition to a draft: alone if there was nothing but white space, else behind the
      old text without its trailing white space, after a blank line. */
  lemma AppendedBehind(existing: string, markdown: string)
    ensures Blank(existing) ==> Appended(existing, markdown) == markdown
    ensures !Blank(existing) ==>
      exists kept: string ::
        && kept != "" && !IsSpace(kept[|kept| - 1]) && kept <= existing && Blank(existing[|kept|..])
        && Appended(existing, markdown) == kept + "\n\n" + markdown
  {
    if !Blank(existing) {
      TrimmedEndsInText(existing);
      var kept := TrimEnd(existing);
      assert kept != "" && kept <= existing && Blank(existing[|kept|..]);
    }
  }

  lemma {:induction false} TrimmedEndsInText(s: string)
    ensures TrimEnd(s) != "" ==> !IsSpace(TrimEnd(s)[|TrimEnd(s)| - 1])
  {
    if s == "" || !IsSpace(s[|s| - 1]) {
    } else {
      TrimmedEndsInText(s[..|s| - 1]);
    }
  }

  /** An attachment that is there is replaced in its places by its new copy; one that is
      not comes last; nothing else moves or changes. */
  lemma AttachedOnce(uploads: seq<DraftUpload>, a: Attachment)
    ensures
      var r, held := Attached(uploads, a), exists u <- uploads :: HoldsAttachment(u, a.id);
      && |r| == |uploads| + (if held then 0 else 1)
      && (!held ==> r[|uploads|] == AttachmentToDraftUpload(a))
      && forall k :: 0 <= k < |uploads| ==>
           r[k] == if HoldsAttachment(uploads[k], a.id) then AttachmentToDraftUpload(a) else uploads[k]
  {
    if exists k :: 0 <= k < |uploads| && HoldsAttachment(uploads[k], a.id) {
    } else {
      assert forall u <- uploads :: !HoldsAttachment(u, a.id);
    }
  }

  lemma ReplacedInPlace(uploads: seq<DraftUpload>, id: string, u: DraftUpload)
    ensures
      var r := Replaced(uploads, id, u);
      && |r| == |uploads|
      && forall k :: 0 <= k < |uploads| ==>
           && (uploads[k].clientUploadId == id ==> r[k] == u)
           && (uploads[k].clientUploadId != id ==> r[k] == uploads[k])
  {
  }

  /** The upload that fails is the first of its id. */
  lemma {:induction false} FirstIsFound(uploads: seq<DraftUpload>, id: string)
    requires HasUpload(uploads, id)
    ensures exists k ::
      && 0 <= k < |uploads| && FindUpload(uploads, id) == uploads[k] && uploads[k].clientUploadId == id
      && forall j :: 0 <= j < k ==> uploads[j].clientUploadId != id
  {
    if uploads[0].clientUploadId == id {
    } else {
      var j :| 0 <= j < |uploads| && uploads[j].clientUploadId == id;
      assert uploads[1..][j - 1] == uploads[j];
      FirstIsFound(uploads[1..], id);
      var k :| 0 <= k < |uploads[1..]| && FindUpload(uploads[1..], id) == uploads[1..][k]
            && uploads[1..][k].clientUploadId == id
            && forall j :: 0 <= j < k ==> uploads[1..][j].clientUploadId != id;
      assert uploads[k + 1] == uploads[1..][k];
      assert forall j :: 0 < j < k + 1 ==> uploads[j] == uploads[1..][j - 1];
    }
  }

  /** It keeps its id, name, size and type, and is no longer in flight. */
  lemma FailureKeepsFile(u: DraftUpload, error: Option<string>)
    ensures
      var f := FailedUpload(u, error);
      && f.Pending? && f.status == Failed && f.error == error
      && f.clientUploadId == u.clientUploadId && f.filename == u.filename && f.size == u.size
      && f.contentType == u.contentType
      && !InFlight(f)
  {
  }

  /** An attachment in a draft shows its name, size and type, under its id or, without
      one, its address, and keeps everything but the download address. */
  lemma AttachmentIsKept(a: Attachment)
    ensures
      var u := AttachmentToDraftUpload(a);
      && u.Uploaded? && !InFlight(u)
      && u.clientUploadId == (if a.id == "" then a.url else a.id)
      && u.filename == a.filename && u.size == a.sizeBytes
      && (a.contentType == "" ==> u.contentType.None?) && (a.contentType != "" ==> u.contentType == Some(a.contentType))
      && u.attachment == Attachment(a.id, a.filename, a.url, "", a.sizeBytes, a.contentType)
  {
  }

  /** A settled upload is its attachment, under the id it was started with. */
  lemma SettledIsAttachment(id: string, a: Attachment)
    ensures HoldsAttachment(Settled(id, a), a.id) && Settled(id, a).clientUploadId == id
    ensures
      var s, u := Settled(id, a), AttachmentToDraftUpload(a);
      && s.attachment == u.attachment
      && s.filename == u.filename && s.size == u.size && s.contentType == u.contentType
  {
  }

  function OtherUpload(id: string): DraftUpload -> bool {
    (u: DraftUpload) => u.clientUploadId != id
  }

  lemma {:induction false} RemovedInOrder(uploads: seq<DraftUpload>, id: string)
    ensures Selected(uploads, OtherUpload(id), WithoutUpload(uploads, id))
  {
    if uploads == [] {
      NothingSelected(uploads, OtherUpload(id));
    } else {
      RemovedInOrder(uploads[1..], id);
      var rest := WithoutUpload(uploads[1..], id);
      SelectedHead(uploads, OtherUpload(id), rest);
      assert [] + rest == rest;
      assert WithoutUpload(uploads, id) == if uploads[0].clientUploadId == id then rest else [uploads[0]] + rest;
    }
  }

  function Settles(): DraftUpload -> bool {
    (u: DraftUpload) => !InFlight(u)
  }

  /** What survives a restart is what is not in flight, in order. */
  lemma {:induction false} SavedInOrder(uploads: seq<DraftUpload>)
    ensures Selected(uploads, Settles(), SavedUploads(uploads))
  {
    if uploads == [] {
      NothingSelected(uploads, Settles());
    } else {
      var last, rest := uploads[|uploads| - 1], SavedUploads(uploads[..|uploads| - 1]);
      SavedInOrder(uploads[..|uploads| - 1]);
      SelectedLast(uploads, Settles(), rest);
      assert rest + [] == rest;
      assert SavedUploads(uploads) == if InFlight(last) then rest else rest + [last];
    }
  }

  // The text of a slot -------------------------------------------------------------------

  function NonEmpty(text: Option<string>): Option<string> {
    if text == Some("") then None else text
  }

  /** What an action makes of the text of a slot. After a restart the agents' old slots
      are gone, and the new chat takes over the selected one's if it has none. */
  function NextText(before: Option<string>, adopted: Option<string>, a: Action, key: string): Option<string> {
    match a
    case SetInputDraft(slot, draft) => if slot == key then Some(draft) else before
    case AppendToInputDraft(slot, markdown) =>
      if slot == key then Some(Appended(before.GetOr(""), markdown)) else before
    case ClearInputDraft(slot) => if slot == key then None else before
    case Rehydrate(_) =>
      if IsLegacy(key) then None
      else if key == DRAFT_NEW_SESSION && NonEmpty(before).None? then NonEmpty(adopted)
      else NonEmpty(before)
    case _ => before
  }

  function AdoptedSlot(a: Action): string {
    if a.Rehydrate? then AgentSlot(a.agent) else ""
  }

  /** The text of a slot after a run: what the last action that set it left, with the
      additions since; none after a clearing; what was not empty after a restart. */
  function TextAfter(start: map<string, string>, run: seq<Action>, key: string): Option<string> {
    if run == [] then Slotted(start, key)
    else
      var init, last := run[..|run| - 1], run[|run| - 1];
      NextText(TextAfter(start, init, key), TextAfter(start, init, AdoptedSlot(last)), last, key)
  }

  /** A restart keeps every text that is not empty. */
  lemma ReloadedText(s: State, a: Action, key: string)
    requires Mirrors(s) && NoEmptyDraft(s.stored) && a.Rehydrate?
    ensures
      Slotted(Next(s, a).memory.drafts, key) ==
      NextText(Slotted(s.memory.drafts, key), Slotted(s.memory.drafts, AdoptedSlot(a)), a, key)
  {
    var read := ReadDrafts(s.stored.drafts);
    assert SavedDrafts(read) == SavedDrafts(s.memory.drafts);
    assert SavedDrafts(read) == read;
    NewChatOpensWith(read, a.agent);
    if !IsLegacy(key) {
      MigrationKeeps(read, a.agent, key);
    } else {
      MigrationIsIdempotent(read, a.agent, a.agent);
    }
    assert IsLegacy(AgentSlot(a.agent));
  }

  /** No other action touches the text of another slot. */
  lemma TextStep(s: State, a: Action, key: string)
    requires Mirrors(s) && NoEmptyDraft(s.stored)
    ensures
      Slotted(Next(s, a).memory.drafts, key) ==
      NextText(Slotted(s.memory.drafts, key), Slotted(s.memory.drafts, AdoptedSlot(a)), a, key)
  {
    if a.Rehydrate? {
      ReloadedText(s, a, key);
    }
  }

  lemma {:induction false} StaysMirrored(s: State, run: seq<Action>)
    requires Mirrors(s) && NoEmptyDraft(s.stored)
    ensures Mirrors(After(s, run)) && NoEmptyDraft(After(s, run).stored)
  {
    if run == [] {
    } else {
      StaysMirrored(s, run[..|run| - 1]);
      StepMirrors(After(s, run[..|run| - 1]), run[|run| - 1]);
    }
  }

  lemma TextOneMore(start: map<string, string>, before: State, run: seq<Action>, key: string)
    requires run != [] && Mirrors(before) && NoEmptyDraft(before.stored)
    requires
      var init, last := run[..|run| - 1], run[|run| - 1];
      && Slotted(before.memory.drafts, key) == TextAfter(start, init, key)
      && Slotted(before.memory.drafts, AdoptedSlot(last)) == TextAfter(start, init, AdoptedSlot(last))
    ensures Slotted(Next(before, run[|run| - 1]).memory.drafts, key) == TextAfter(start, run, key)
  {
    TextStep(before, run[|run| - 1], key);
  }

  /** After any run, restarts included, every slot has its text. */
  lemma {:induction false} TextIsLastSet(s: State, run: seq<Action>, key: string)
    requires Mirrors(s) && NoEmptyDraft(s.stored)
    ensures Slotted(After(s, run).memory.drafts, key) == TextAfter(s.memory.drafts, run, key)
    decreases |run|
  {
    if run == [] {
    } else {
      var init := run[..|run| - 1];
      StaysMirrored(s, init);
      TextIsLastSet(s, init, key);
      TextIsLastSet(s, init, AdoptedSlot(run[|run| - 1]));
      TextOneMore(s.memory.drafts, After(s, init), run, key);
    }
  }

  /** And reading storage back shows it exactly if it is not empty. */
  lemma TextIsReadBack(s: State, run: seq<Action>, key: string)
    requires Mirrors(s) && NoEmptyDraft(s.stored)
    ensures Slotted(ReadBack(After(s, run).stored).drafts, key) == NonEmpty(TextAfter(s.memory.drafts, run, key))
  {
    var end := After(s, run);
    StaysMirrored(s, run);
    TextIsLastSet(s, run, key);
    var read := ReadDrafts(end.stored.drafts);
    assert SavedDrafts(read) == SavedDrafts(end.memory.drafts);
    assert SavedDrafts(read) == read;
  }

  /** What sets, extends or drops the text of a slot. */
  predicate Writes(a: Action, key: string) {
    || (a.SetInputDraft? && a.key == key) || (a.AppendToInputDraft? && a.key == key)
    || (a.ClearInputDraft? && a.key == key) || a.Rehydrate?
  }

  /** In particular a text stays as it was set while nothing writes to its slot. */
  lemma {:induction false} SetTextStands(start: map<string, string>, run: seq<Action>, m: nat, key: string)
    requires m < |run| && run[m].SetInputDraft? && run[m].key == key
    requires forall k :: m < k < |run| ==> !Writes(run[k], key)
    ensures TextAfter(start, run, key) == Some(run[m].draft)
    decreases |run|
  {
    if |run| == m + 1 {
    } else {
      SetTextStands(start, run[..|run| - 1], m, key);
      assert !Writes(run[|run| - 1], key);
    }
  }

  // The attachments of a slot ------------------------------------------------------------

  /** What an action makes of the attachments of a slot. */
  function NextFiles(before: seq<DraftUpload>, adopted: seq<DraftUpload>, a: Action, key: string): seq<DraftUpload> {
    match a
    case SetInputDraftAttachments(slot, uploads) => if slot == key then uploads else before
    case AddInputDraftAttachment(slot, a) => if slot == key && a.id != "" then Attached(before, a) else before
    case AddInputDraftUpload(slot, u) =>
      if slot == key && !HasUpload(before, u.clientUploadId) then before + [u] else before
    case SettleInputDraftUpload(slot, id, a) => if slot == key then Replaced(before, id, Settled(id, a)) else before
    case FailInputDraftUpload(slot, id, error) =>
      if slot == key && HasUpload(before, id) then Replaced(before, id, FailedUpload(FindUpload(before, id), error))
      else before
    case RemoveInputDraftUpload(slot, id) => if slot == key then WithoutUpload(before, id) else before
    case ClearInputDraft(slot) => if slot == key then [] else before
    case Rehydrate(_) =>
      if IsLegacy(key) then []
      else if key == DRAFT_NEW_SESSION && SavedUploads(before) == [] then SavedUploads(adopted)
      else SavedUploads(before)
    case _ => before
  }

  /** The attachments of a slot after a run. */
  function FilesAfter(start: map<string, seq<DraftUpload>>, run: seq<Action>, key: string): seq<DraftUpload> {
    if run == [] then At(start, key)
    else
      var init, last := run[..|run| - 1], run[|run| - 1];
      NextFiles(FilesAfter(start, init, key), FilesAfter(start, init, AdoptedSlot(last)), last, key)
  }

  lemma ReplacedAbsent(uploads: seq<DraftUpload>, id: string, u: DraftUpload)
    requires !HasUpload(uploads, id)
    ensures Replaced(uploads, id, u) == uploads
  {
  }

  lemma {:induction false} RemovedAbsent(uploads: seq<DraftUpload>, id: string)
    requires !HasUpload(uploads, id)
    ensures WithoutUpload(uploads, id) == uploads
  {
    if uploads == [] {
    } else {
      assert uploads[0].clientUploadId != id;
      assert forall k :: 0 <= k < |uploads[1..]| ==> uploads[1..][k] == uploads[k + 1];
      RemovedAbsent(uploads[1..], id);
    }
  }

  lemma SettlingStep(s: State, slot: string, id: string, a: Attachment, key: string)
    ensures
      At(Next(s, SettleInputDraftUpload(slot, id, a)).memory.uploads, key) ==
      if slot == key then Replaced(At(s.memory.uploads, key), id, Settled(id, a)) else At(s.memory.uploads, key)
  {
    if !HasUpload(At(s.memory.uploads, slot), id) {
      ReplacedAbsent(At(s.memory.uploads, slot), id, Settled(id, a));
    }
  }

  lemma FailingStep(s: State, slot: string, id: string, error: Option<string>, key: string)
    ensures
      var before := At(s.memory.uploads, key);
      At(Next(s, FailInputDraftUpload(slot, id, error)).memory.uploads, key) ==
      if slot == key && HasUpload(before, id) then Replaced(before, id, FailedUpload(FindUpload(before, id), error))
      else before
  {
  }

  lemma AttachingStep(s: State, slot: string, a: Attachment, key: string)
    ensures
      var before := At(s.memory.uploads, key);
      At(Next(s, AddInputDraftAttachment(slot, a)).memory.uploads, key) ==
      if slot == key && a.id != "" then Attached(before, a) else before
  {
  }

  lemma RemovingStep(s: State, slot: string, id: string, key: string)
    ensures
      At(Next(s, RemoveInputDraftUpload(slot, id)).memory.uploads, key) ==
      if slot == key then WithoutUpload(At(s.memory.uploads, key), id) else At(s.memory.uploads, key)
  {
    if !HasUpload(At(s.memory.uploads, slot), id) {
      RemovedAbsent(At(s.memory.uploads, slot), id);
    }
  }

  /** A restart keeps what is not in flight. */
  lemma ReloadedFiles(s: State, a: Action, key: string)
    requires Mirrors(s) && a.Rehydrate?
    ensures
      At(Next(s, a).memory.uploads, key) ==
      NextFiles(At(s.memory.uploads, key), At(s.memory.uploads, AdoptedSlot(a)), a, key)
  {
    var read := ReadUploads(s.stored.uploads);
    ReadIsPersistent(s.stored);
    assert read == SavedSlots(s.memory.uploads);
    NewChatOpensWith(read, a.agent);
    if !IsLegacy(key) {
      MigrationKeeps(read, a.agent, key);
    } else {
      MigrationIsIdempotent(read, a.agent, a.agent);
    }
  }

  predicate WritesInList(a: Action) {
    || a.SettleInputDraftUpload? || a.RemoveInputDraftUpload? || a.FailInputDraftUpload?
    || a.AddInputDraftAttachment? || a.Rehydrate?
  }

  lemma PlainFilesStep(s: State, a: Action, key: string)
    requires !WritesInList(a)
    ensures
      At(Next(s, a).memory.uploads, key) ==
      NextFiles(At(s.memory.uploads, key), At(s.memory.uploads, AdoptedSlot(a)), a, key)
  {
  }

  lemma FilesStep(s: State, a: Action, key: string)
    requires Mirrors(s)
    ensures
      At(Next(s, a).memory.uploads, key) ==
      NextFiles(At(s.memory.uploads, key), At(s.memory.uploads, AdoptedSlot(a)), a, key)
  {
    match a
    case SettleInputDraftUpload(slot, id, attachment) => SettlingStep(s, slot, id, attachment, key);
    case RemoveInputDraftUpload(slot, id) => RemovingStep(s, slot, id, key);
    case FailInputDraftUpload(slot, id, error) => FailingStep(s, slot, id, error, key);
    case AddInputDraftAttachment(slot, attachment) => AttachingStep(s, slot, attachment, key);
    case Rehydrate(_) => ReloadedFiles(s, a, key);
    case _ => PlainFilesStep(s, a, key);
  }

  lemma FilesOneMore(start: map<string, seq<DraftUpload>>, before: State, run: seq<Action>, key: string)
    requires run != [] && Mirrors(before)
    requires
      var init, last := run[..|run| - 1], run[|run| - 1];
      && At(before.memory.uploads, key) == FilesAfter(start, init, key)
      && At(before.memory.uploads, AdoptedSlot(last)) == FilesAfter(start, init, AdoptedSlot(last))
    ensures At(Next(before, run[|run| - 1]).memory.uploads, key) == FilesAfter(start, run, key)
  {
    FilesStep(before, run[|run| - 1], key);
  }

  /** After any run, restarts included, every slot has its attachments. */
  lemma {:induction false} FilesAreKept(s: State, run: seq<Action>, key: string)
    requires Mirrors(s) && NoEmptyDraft(s.stored)
    ensures At(After(s, run).memory.uploads, key) == FilesAfter(s.memory.uploads, run, key)
    decreases |run|
  {
    if run == [] {
    } else {
      var init := run[..|run| - 1];
      StaysMirrored(s, init);
      FilesAreKept(s, init, key);
      FilesAreKept(s, init, AdoptedSlot(run[|run| - 1]));
      FilesOneMore(s.memory.uploads, After(s, init), run, key);
    }
  }

  // Applied restores -----------------------------------------------------------------------

  /** The restore has been applied and not forgotten since. */
  predicate AppliedAfter(start: seq<string>, run: seq<Action>, id: string) {
    if run == [] then id in start
    else
      var init, last := run[..|run| - 1], run[|run| - 1];
      if last == MarkDraftRestoreApplied(id) then true
      else if last == ForgetDraftRestoreApplied(id) then false
      else AppliedAfter(start, init, id)
  }

  lemma {:induction false} ForgottenIsGone(ids: seq<string>, id: string)
    ensures forall x :: x in WithoutId(ids, id) <==> x in ids && x != id
  {
    if ids == [] {
    } else {
      ForgottenIsGone(ids[1..], id);
      assert ids == [ids[0]] + ids[1..];
    }
  }

  function OtherId(id: string): string -> bool {
    (x: string) => x != id
  }

  lemma {:induction false} ForgottenInOrder(ids: seq<string>, id: string)
    ensures Selected(ids, OtherId(id), WithoutId(ids, id))
  {
    if ids == [] {
      NothingSelected(ids, OtherId(id));
    } else {
      ForgottenInOrder(ids[1..], id);
      var rest := WithoutId(ids[1..], id);
      SelectedHead(ids, OtherId(id), rest);
      assert [] + rest == rest;
      assert WithoutId(ids, id) == if ids[0] == id then rest else [ids[0]] + rest;
    }
  }

  /** A restore that is newly applied comes last, behind the others in their order, and
      one that is forgotten leaves them in it. */
  lemma AppliedInOrder(s: State, id: string)
    requires Mirrors(s)
    ensures id !in s.memory.applied ==>
      Next(s, MarkDraftRestoreApplied(id)).memory.applied == s.memory.applied + [id]
    ensures Selected(s.memory.applied, OtherId(id), Next(s, ForgetDraftRestoreApplied(id)).memory.applied)
    ensures forall agent :: Next(s, Rehydrate(agent)).memory.applied == s.memory.applied
  {
    if id !in s.memory.applied {
      WithoutIdAbsent(s.memory.applied, id);
    }
    AppliedStay(s);
    assert Next(s, ForgetDraftRestoreApplied(id)).memory.applied == WithoutId(s.memory.applied, id);
    ForgottenInOrder(s.memory.applied, id);
  }

  lemma AppliedStay(s: State)
    requires Mirrors(s)
    ensures forall agent :: Next(s, Rehydrate(agent)).memory.applied == s.memory.applied
  {
    forall agent: Option<string>
      ensures Next(s, Rehydrate(agent)).memory.applied == s.memory.applied
    {
      ReadIsPersistent(s.stored);
    }
  }

  lemma {:induction false} WithoutIdAbsent(ids: seq<string>, id: string)
    requires id !in ids
    ensures WithoutId(ids, id) == ids
  {
    if ids == [] {
    } else {
      WithoutIdAbsent(ids[1..], id);
    }
  }

  lemma AppliedStep(s: State, a: Action, id: string)
    requires Mirrors(s)
    ensures
      id in Next(s, a).memory.applied <==>
      if a == MarkDraftRestoreApplied(id) then true
      else if a == ForgetDraftRestoreApplied(id) then false
      else id in s.memory.applied
  {
    match a
    case ForgetDraftRestoreApplied(other) => ForgottenIsGone(s.memory.applied, other);
    case Rehydrate(agent) => ReadIsPersistent(s.stored);
    case _ =>
  }

  /** After any run, restarts included, the applied restores are those marked and not
      forgotten since. */
  lemma {:induction false} AppliedAreRemembered(s: State, run: seq<Action>, id: string)
    requires Mirrors(s) && NoEmptyDraft(s.stored)
    ensures id in After(s, run).memory.applied <==> AppliedAfter(s.memory.applied, run, id)
  {
    if run == [] {
    } else {
      var init := run[..|run| - 1];
      StaysMirrored(s, init);
      AppliedAreRemembered(s, init, id);
      AppliedStep(After(s, init), run[|run| - 1], id);
    }
  }
}
