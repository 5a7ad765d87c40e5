/**
 * The autosave engine of the note editor (the `useAutosave` hook). The hook's
 * refs and its status become the fields of one engine object per editing
 * session; the React effects and the timer and network callbacks become its
 * methods, one per event:
 *
 *   constructor      mount (baseline initialisation, first debounce scheduled)
 *   Change           a render whose title or content differs
 *   SwitchNote       a render whose note id differs (baseline reset)
 *   FireDebounce     the 1500 ms debounce timer fires and calls `performSave`
 *   CompleteSave     the awaited `fetch` of a remote save settles
 *   SavedTimerFire   the 2000 ms "saved" display timer fires
 *   Unmount          the cleanup effects run
 *
 * Timers are explicit pending slots: `debounce` holds the values the pending
 * debounce callback closed over, `savedTimer` says whether a "saved" timer is
 * pending. A guest save runs to completion inside `FireDebounce` (that path has
 * no `await`); a remote save leaves its request in `inFlight` until
 * `CompleteSave`.
 */
module Autosave {
  import opened Wrappers
  import opened Records
  import opened Fetch
  import Ascii
  import opened GuestNotes

  datatype SaveStatus = Idle | Saving | Saved | Error

  /** What the engine compares and persists: the title and the content, nothing else. */
  datatype Snapshot = Snapshot(title: string, content: string)

  /** A request to the note service. */
  datatype Request =
    | Post(title: string, content: string)               // POST /api/notes
    | Patch(id: string, title: string, content: string)  // PATCH /api/notes/{id}

  /** `if (noteId)`: an id counts only when present and non-empty. */
  predicate HasId(noteId: Option<string>) {
    noteId.Some? && noteId.value != ""
  }

  /** Title and content are both empty or white space (see `BlankIsTrimmedEmpty`). */
  predicate IsBlank(s: Snapshot) {
    Ascii.Blank(s.title) && Ascii.Blank(s.content)
  }

  /** `!title.trim() && !content.trim()` is exactly `IsBlank`. */
  lemma BlankIsTrimmedEmpty(s: Snapshot)
    ensures IsBlank(s) <==> Ascii.Trim(s.title) == [] && Ascii.Trim(s.content) == []
  {
  }

  /**
   * The three early returns of `performSave`, negated, as the source writes
   * them: the attempt goes ahead exactly when no save is in flight, the draft
   * is not blank, and it differs from the baseline.
   */
  function Admits(saving: bool, lastSaved: Snapshot, candidate: Snapshot): (go: bool)
    ensures go <==> !saving && !IsBlank(candidate) && candidate != lastSaved
  {
    BlankIsTrimmedEmpty(candidate);
    && !saving
    && !(Ascii.Trim(candidate.title) == [] && Ascii.Trim(candidate.content) == [])
    && !(candidate.title == lastSaved.title && candidate.content == lastSaved.content)
  }

  /** The remote request for a save: update when there is an id, create otherwise. */
  function RequestFor(noteId: Option<string>, s: Snapshot): (r: Request)
    ensures r.title == s.title && r.content == s.content
    ensures r.Patch? <==> HasId(noteId)
    ensures r.Patch? ==> r.id == noteId.value
  {
    if HasId(noteId) then Patch(noteId.value, s.title, s.content) else Post(s.title, s.content)
  }

  /** The update a guest save applies: title and content only. */
  function SnapshotPatch(s: Snapshot): NotePatch {
    NotePatch(Some(s.title), Some(s.content), None, None, None)
  }

  /** The note a guest save creates when there is no id yet. */
  function GuestNoteFor(s: Snapshot, newId: string, now: string): Note {
    CreateGuestNote(NoteDraft(s.title, s.content, None, None, None), newId, now)
  }

  /** The whole list a guest save writes back, given the list it read. */
  function GuestWrite(notes: seq<Note>, noteId: Option<string>, s: Snapshot, newId: string, now: string): (r: seq<Note>)
    // with an id: the list keeps its length and order; only the records with that id change
    ensures HasId(noteId) ==> |r| == |notes|
    ensures HasId(noteId) ==> forall i :: 0 <= i < |notes| ==>
      && r[i].id == notes[i].id
      && (notes[i].id != noteId.value ==> r[i] == notes[i])
      && (notes[i].id == noteId.value ==>
            r[i] == notes[i].(title := s.title, content := s.content, updatedAt := now))
    // without one: a fresh, unpinned, untagged note with the new id in front of the list it read
    ensures !HasId(noteId) ==> |r| == |notes| + 1 && r[1..] == notes
    ensures !HasId(noteId) ==>
      && r[0].id == newId && r[0].title == s.title && r[0].content == s.content
      && r[0].createdAt == now && r[0].updatedAt == now
      && !r[0].isPinned && r[0].notebookId.None? && r[0].tags == []
  {
    if HasId(noteId) then UpdateGuestNote(notes, noteId.value, SnapshotPatch(s), now)
    else [GuestNoteFor(s, newId, now)] + notes
  }

  /**
   * Whether the `try` block of a remote save completes. Only a rejected `fetch`
   * or an unparsable body of a successful create throws; a response with an
   * error status does not.
   */
  function Completes(req: Request, outcome: FetchOutcome): (done: bool)
    ensures outcome.NetworkError? ==> !done
    ensures outcome.Responded? && req.Patch? ==> done
    ensures outcome.Responded? && !outcome.ok ==> done
    ensures outcome.Responded? && req.Post? && outcome.ok ==> (done <==> outcome.json.Some?)
  {
    outcome.Responded? && (req.Patch? || !outcome.ok || outcome.json.Some?)
  }

  /** The note handed to `onNoteCreated` when a remote save completes. */
  function CreatedBy(req: Request, outcome: FetchOutcome): (r: Option<Note>)
    ensures r.Some? ==> req.Post? && outcome.Responded? && outcome.ok && outcome.json == r
  {
    if req.Post? && outcome.Responded? && outcome.ok then outcome.json else None
  }

  class AutosaveEngine {
    const isGuest: bool
    const store: GuestStorage
    var noteId: Option<string>       // the current prop, equal to prevNoteIdRef after the effects
    var title: string
    var content: string
    var status: SaveStatus
    var lastSaved: Snapshot          // lastSavedRef
    var saving: bool                 // savingRef
    var inFlight: Option<Request>    // the awaited remote request, if any
    var debounce: Option<Snapshot>   // timerRef: the pending performSave(title, content)
    var savedTimer: bool             // savedTimerRef: a pending "back to idle"
    var mounted: bool

    ghost predicate Valid()
      reads this
    {
      && (saving <==> inFlight.Some?)
      && (isGuest ==> !saving)
      && (status == Saving ==> saving)
      && (!mounted ==> debounce.None?)
    }

    /**
     * Mount. The initialisation effect makes the mount-time draft the
     * baseline; it runs before the debounce effect, which therefore finds the
     * engine initialised and schedules a first debounce with the same values.
     */
    constructor (noteId: Option<string>, title: string, content: string, isGuest: bool, store: GuestStorage)
      ensures Valid()
      ensures this.isGuest == isGuest && this.store == store
      ensures this.noteId == noteId && this.title == title && this.content == content
      ensures status == Idle && lastSaved == Snapshot(title, content)
      ensures debounce == Some(Snapshot(title, content))
      ensures !saving && inFlight.None? && !savedTimer && mounted
    {
      this.isGuest := isGuest;
      this.store := store;
      this.noteId := noteId;
      this.title := title;
      this.content := content;
      status := Idle;
      lastSaved := Snapshot(title, content);
      saving := false;
      inFlight := None;
      debounce := Some(Snapshot(title, content));
      savedTimer := false;
      mounted := true;
    }

    /**
     * A render with the same note id. When the title or the content differs
     * the debounce effect cancels the pending timer and schedules one with the
     * latest values; otherwise its dependencies are unchanged and it does not run.
     */
    method Change(newTitle: string, newContent: string)
      requires Valid() && mounted
      modifies this
      ensures Valid() && mounted
      ensures title == newTitle && content == newContent
      ensures debounce == if newTitle != old(title) || newContent != old(content)
                          then Some(Snapshot(newTitle, newContent)) else old(debounce)
      ensures noteId == old(noteId) && status == old(status) && lastSaved == old(lastSaved)
      ensures saving == old(saving) && inFlight == old(inFlight) && savedTimer == old(savedTimer)
    {
      if newTitle != title || newContent != content {
        debounce := Some(Snapshot(newTitle, newContent));
      }
      title, content := newTitle, newContent;
    }

    /**
     * A render with a different note id: the reset effect makes the current
     * draft the baseline and the status idle; `performSave` is a new callback,
     * so the debounce effect cancels the pending timer and schedules one with
     * the current draft. A request already in flight is not affected. With the
     * same id this is `Change`.
     */
    method SwitchNote(newId: Option<string>, newTitle: string, newContent: string)
      requires Valid() && mounted
      modifies this
      ensures Valid() && mounted
      ensures noteId == newId && title == newTitle && content == newContent
      ensures newId != old(noteId) ==>
        && lastSaved == Snapshot(newTitle, newContent)
        && status == Idle
        && debounce == Some(Snapshot(newTitle, newContent))
      ensures newId == old(noteId) ==>
        && lastSaved == old(lastSaved)
        && status == old(status)
        && debounce == if newTitle != old(title) || newContent != old(content)
                       then Some(Snapshot(newTitle, newContent)) else old(debounce)
      ensures saving == old(saving) && inFlight == old(inFlight) && savedTimer == old(savedTimer)
    {
      if newId == noteId {
        Change(newTitle, newContent);
        return;
      }
      lastSaved := Snapshot(newTitle, newContent);
      noteId := newId;
      status := Idle;
      debounce := Some(Snapshot(newTitle, newContent));
      title, content := newTitle, newContent;
    }

    /**
     * The reset as evidently intended when the caller adopts the id of the note
     * this engine has just created: the id changes and the debounce is
     * rescheduled with the current draft, but the baseline stays the draft that
     * was actually sent, so edits typed while the create was in flight are
     * still saved. `SwitchNote` is the reset as written.
     */
    method AdoptCreatedNote(createdId: string, newTitle: string, newContent: string)
      requires Valid() && mounted && !HasId(noteId)
      modifies this
      ensures Valid() && mounted
      ensures noteId == Some(createdId) && title == newTitle && content == newContent
      ensures lastSaved == old(lastSaved) && status == old(status)
      ensures debounce == Some(Snapshot(newTitle, newContent))
      ensures saving == old(saving) && inFlight == old(inFlight) && savedTimer == old(savedTimer)
    {
      noteId := Some(createdId);
      debounce := Some(Snapshot(newTitle, newContent));
      title, content := newTitle, newContent;
    }

    /**
     * The guest branch of `performSave`'s `try` block up to the storage write:
     * read the stored list, patch or prepend, write the whole list back.
     * `created` is the note reported to `onNoteCreated`, which is called only
     * when the write did not throw.
     */
    method PersistToGuestStore(s: Snapshot, newId: string, now: string, quotaExceeded: bool)
      returns (threw: bool, created: Option<Note>)
      modifies store
      ensures threw == (store.hasWindow && quotaExceeded)
      ensures var written := GuestWrite(old(store.GetGuestNotes()), noteId, s, newId, now);
        && store.notesSlot == (if store.hasWindow && !quotaExceeded then Parsed(ToStoredAll(written)) else old(store.notesSlot))
        && (store.hasWindow && !threw ==> store.GetGuestNotes() == written)
      ensures created == if threw || HasId(noteId) then None else Some(GuestNoteFor(s, newId, now))
      ensures store.notebooksSlot == old(store.notebooksSlot)
    {
      created := None;
      if HasId(noteId) {
        var notes := store.GetGuestNotes();
        threw := store.SaveGuestNotes(UpdateGuestNote(notes, noteId.value, SnapshotPatch(s), now), quotaExceeded);
      } else {
        var newNote := GuestNoteFor(s, newId, now);
        var notes := store.GetGuestNotes();
        threw := store.SaveGuestNotes([newNote] + notes, quotaExceeded);
        if !threw {
          created := Some(newNote);
        }
      }
    }

    /**
     * The debounce timer fires and runs `performSave` on the values it closed
     * over. `newId` and `now` stand for `crypto.randomUUID()` and the current
     * time (used only by a guest save), `quotaExceeded` for a storage write
     * that throws. Returns the remote request started (`sent`), the note
     * reported to `onNoteCreated` (`created`) and whether `onNotesChanged` was
     * called.
     */
    method FireDebounce(newId: string, now: string, quotaExceeded: bool)
      returns (sent: Option<Request>, created: Option<Note>, notesChanged: bool)
      requires Valid()
      modifies this, store
      ensures Valid()
      ensures debounce.None?
      ensures noteId == old(noteId) && title == old(title) && content == old(content) && mounted == old(mounted)
      // no pending timer, or a guard returns early: nothing happens
      ensures old(debounce).None? || !Admits(old(saving), old(lastSaved), old(debounce).value) ==>
        && status == old(status) && lastSaved == old(lastSaved) && savedTimer == old(savedTimer)
        && saving == old(saving) && inFlight == old(inFlight)
        && sent.None? && created.None? && !notesChanged
        && store.notesSlot == old(store.notesSlot)
      // remote: the request goes out and the save stays in flight
      ensures old(debounce).Some? && Admits(old(saving), old(lastSaved), old(debounce).value) && !isGuest ==>
        && saving && inFlight == Some(RequestFor(noteId, old(debounce).value)) && sent == inFlight
        && status == Saving && lastSaved == old(lastSaved) && savedTimer == old(savedTimer)
        && created.None? && !notesChanged
        && store.notesSlot == old(store.notesSlot)
      // guest: the whole list is written back at once, then success or error
      ensures old(debounce).Some? && Admits(old(saving), old(lastSaved), old(debounce).value) && isGuest ==>
        var s := old(debounce).value;
        var written := GuestWrite(old(store.GetGuestNotes()), noteId, s, newId, now);
        var threw := store.hasWindow && quotaExceeded;
        && !saving && inFlight.None? && sent.None?
        && store.notesSlot == (if store.hasWindow && !quotaExceeded then Parsed(ToStoredAll(written)) else old(store.notesSlot))
        && (store.hasWindow && !threw ==> store.GetGuestNotes() == written)
        && (!threw ==> lastSaved == s && status == Saved && savedTimer && notesChanged
                       && created == (if HasId(noteId) then None else Some(GuestNoteFor(s, newId, now))))
        && (threw ==> lastSaved == old(lastSaved) && status == Error && savedTimer == old(savedTimer)
                      && !notesChanged && created.None?)
      ensures store.notebooksSlot == old(store.notebooksSlot)
    {
      sent, created, notesChanged := None, None, false;
      if debounce.None? {
        return;
      }
      var s := debounce.value;
      debounce := None;
      if saving {
        return;
      }
      if IsBlank(s) {
        return;
      }
      if s == lastSaved {
        return;
      }
      saving := true;
      status := Saving;
      if !isGuest {
        inFlight := Some(RequestFor(noteId, s));
        sent := inFlight;
        return;
      }
      var threw: bool;
      threw, created := PersistToGuestStore(s, newId, now, quotaExceeded);
      if threw {
        status := Error;
      } else {
        lastSaved := s;
        notesChanged := true;
        status := Saved;
        savedTimer := true;
      }
      saving := false;
    }

    /**
     * The debounce callback as evidently intended: while a save is in flight
     * the pending draft is kept (the timer is re-armed) instead of dropped, so
     * it is attempted once the save has settled. Otherwise it is `FireDebounce`.
     */
    method FireDebounceKeepingDraft(newId: string, now: string, quotaExceeded: bool)
      returns (sent: Option<Request>, created: Option<Note>, notesChanged: bool)
      requires Valid()
      modifies this, store
      ensures Valid()
      ensures noteId == old(noteId) && title == old(title) && content == old(content) && mounted == old(mounted)
      ensures old(saving) ==>
        && debounce == old(debounce) && status == old(status) && lastSaved == old(lastSaved)
        && saving && inFlight == old(inFlight) && savedTimer == old(savedTimer)
        && sent.None? && created.None? && !notesChanged
        && store.notesSlot == old(store.notesSlot)
      // no save in flight: exactly `FireDebounce`, case by case
      ensures !old(saving) ==> debounce.None?
      ensures !old(saving) && (old(debounce).None? || !Admits(false, old(lastSaved), old(debounce).value)) ==>
        && status == old(status) && lastSaved == old(lastSaved) && savedTimer == old(savedTimer)
        && !saving && inFlight == old(inFlight)
        && sent.None? && created.None? && !notesChanged
        && store.notesSlot == old(store.notesSlot)
      ensures !old(saving) && old(debounce).Some? && Admits(false, old(lastSaved), old(debounce).value) && !isGuest ==>
        && saving && inFlight == Some(RequestFor(noteId, old(debounce).value)) && sent == inFlight
        && status == Saving && lastSaved == old(lastSaved) && savedTimer == old(savedTimer)
        && created.None? && !notesChanged
        && store.notesSlot == old(store.notesSlot)
      ensures !old(saving) && old(debounce).Some? && Admits(false, old(lastSaved), old(debounce).value) && isGuest ==>
        var s := old(debounce).value;
        var written := GuestWrite(old(store.GetGuestNotes()), noteId, s, newId, now);
        var threw := store.hasWindow && quotaExceeded;
        && !saving && inFlight.None? && sent.None?
        && store.notesSlot == (if store.hasWindow && !quotaExceeded then Parsed(ToStoredAll(written)) else old(store.notesSlot))
        && (store.hasWindow && !threw ==> store.GetGuestNotes() == written)
        && (!threw ==> lastSaved == s && status == Saved && savedTimer && notesChanged
                       && created == (if HasId(noteId) then None else Some(GuestNoteFor(s, newId, now))))
        && (threw ==> lastSaved == old(lastSaved) && status == Error && savedTimer == old(savedTimer)
                      && !notesChanged && created.None?)
      ensures store.notebooksSlot == old(store.notebooksSlot)
    {
      if saving {
        return None, None, false;
      }
      sent, created, notesChanged := FireDebounce(newId, now, quotaExceeded);
    }

    /**
     * The `fetch` of the request in flight settles with `outcome`. A completed
     * `try` block advances the baseline to the values sent, reports them, shows
     * "saved" and (re)starts the one saved timer; a throw shows "error" and
     * keeps the baseline. Either way the in-flight flag is cleared.
     */
    method CompleteSave(outcome: FetchOutcome) returns (created: Option<Note>, notesChanged: bool)
      requires Valid()
      modifies this
      ensures Valid()
      ensures noteId == old(noteId) && title == old(title) && content == old(content)
      ensures debounce == old(debounce) && mounted == old(mounted)
      ensures old(inFlight).None? ==>
        && status == old(status) && lastSaved == old(lastSaved) && savedTimer == old(savedTimer)
        && saving == old(saving) && inFlight == old(inFlight) && created.None? && !notesChanged
      ensures old(inFlight).Some? ==> !saving && inFlight.None?
      ensures old(inFlight).Some? && Completes(old(inFlight).value, outcome) ==>
        var req := old(inFlight).value;
        && lastSaved == Snapshot(req.title, req.content) && status == Saved && savedTimer
        && notesChanged && created == CreatedBy(req, outcome)
      ensures old(inFlight).Some? && !Completes(old(inFlight).value, outcome) ==>
        && lastSaved == old(lastSaved) && status == Error && savedTimer == old(savedTimer)
        && !notesChanged && created.None?
    {
      created, notesChanged := None, false;
      if inFlight.None? {
        return;
      }
      var req := inFlight.value;
      inFlight := None;
      match outcome {
        case NetworkError =>
          status := Error;
        case Responded(ok, json) =>
          if req.Post? && ok && json.None? {
            // `await res.json()` throws
            status := Error;
          } else {
            if req.Post? && ok {
              created := json;
            }
            lastSaved := Snapshot(req.title, req.content);
            notesChanged := true;
            status := Saved;
            savedTimer := true;
          }
      }
      saving := false;
    }

    /** The saved timer fires: the status goes back to idle, whatever it is by then. */
    method SavedTimerFire()
      requires Valid()
      modifies this
      ensures Valid()
      ensures !savedTimer
      ensures status == if old(savedTimer) then Idle else old(status)
      ensures noteId == old(noteId) && title == old(title) && content == old(content)
      ensures lastSaved == old(lastSaved) && saving == old(saving) && inFlight == old(inFlight)
      ensures debounce == old(debounce) && mounted == old(mounted)
    {
      if savedTimer {
        status := Idle;
        savedTimer := false;
      }
    }

    /** Unmount: both pending timers are cancelled. A request in flight still settles later. */
    method Unmount()
      requires Valid()
      modifies this
      ensures Valid()
      ensures !mounted && debounce.None? && !savedTimer
      ensures noteId == old(noteId) && title == old(title) && content == old(content)
      ensures status == old(status) && lastSaved == old(lastSaved)
      ensures saving == old(saving) && inFlight == old(inFlight)
    {
      debounce := None;
      savedTimer := false;
      mounted := false;
    }
  }
}
