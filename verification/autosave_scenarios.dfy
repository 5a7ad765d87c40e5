/**
 * Event sequences run against a fresh autosave engine. Each method drives one
 * session through the engine's events and states, in its postcondition, what
 * the sequence persists.
 */
module AutosaveScenarios {
  import opened Wrappers
  import opened Records
  import opened Fetch
  import opened GuestNotes
  import opened Autosave

  /**
   * Debounce coalescing: any number of edits with no timer firing in between
   * leave one pending save, and it carries the last edit. A second fire finds
   * no timer.
   */
  method DebounceCoalesces(id: string, t0: string, c0: string, edits: seq<Snapshot>)
    returns (first: Option<Request>, second: Option<Request>)
    requires id != "" && edits != []
    requires !IsBlank(edits[|edits| - 1]) && edits[|edits| - 1] != Snapshot(t0, c0)
    ensures first == Some(Patch(id, edits[|edits| - 1].title, edits[|edits| - 1].content))
    ensures second.None?
  {
    var store := new GuestStorage(true, Missing, Missing);
    var e := new AutosaveEngine(Some(id), t0, c0, false, store);
    for i := 0 to |edits|
      invariant e.Valid() && e.mounted && !e.isGuest && e.noteId == Some(id)
      invariant !e.saving && e.lastSaved == Snapshot(t0, c0)
      invariant e.debounce == Some(Snapshot(e.title, e.content))
      invariant i > 0 ==> Snapshot(e.title, e.content) == edits[i - 1]
    {
      e.Change(edits[i].title, edits[i].content);
    }
    var firstResult, _, _ := e.FireDebounce("", "", false);
    first := firstResult;
    var secondResult, _, _ := e.FireDebounce("", "", false);
    second := secondResult;
  }

  /**
   * Idempotent re-save: once a draft is saved, a later debounce carrying the
   * same draft sends nothing. The saved timer then brings the status back to idle.
   */
  method ResaveIsNoOp(id: string, t0: string, c0: string, s: Snapshot, other: Snapshot)
    returns (first: Option<Request>, second: Option<Request>, afterSave: SaveStatus, afterTimer: SaveStatus)
    requires id != "" && !IsBlank(s) && s != Snapshot(t0, c0) && other != s
    ensures first == Some(Patch(id, s.title, s.content))
    ensures second.None?
    ensures afterSave == Saved && afterTimer == Idle
  {
    var store := new GuestStorage(true, Missing, Missing);
    var e := new AutosaveEngine(Some(id), t0, c0, false, store);
    e.Change(s.title, s.content);
    var firstResult, _, _ := e.FireDebounce("", "", false);
    first := firstResult;
    var _, _ := e.CompleteSave(Responded(true, None));
    afterSave := e.status;
    e.Change(other.title, other.content);
    e.Change(s.title, s.content);
    var secondResult, _, _ := e.FireDebounce("", "", false);
    second := secondResult;
    e.SavedTimerFire();
    afterTimer := e.status;
  }

  /**
   * Failure isolation: a rejected request shows "error", keeps the old
   * baseline, and the same draft is sent again on the next debounce.
   */
  method FailureKeepsBaseline(id: string, t0: string, c0: string, s: Snapshot, other: Snapshot)
    returns (first: Option<Request>, status: SaveStatus, baseline: Snapshot, retry: Option<Request>)
    requires id != "" && !IsBlank(s) && s != Snapshot(t0, c0) && other != s
    ensures first == Some(Patch(id, s.title, s.content))
    ensures status == Error && baseline == Snapshot(t0, c0)
    ensures retry == first
  {
    var store := new GuestStorage(true, Missing, Missing);
    var e := new AutosaveEngine(Some(id), t0, c0, false, store);
    e.Change(s.title, s.content);
    var firstResult, _, _ := e.FireDebounce("", "", false);
    first := firstResult;
    var _, _ := e.CompleteSave(NetworkError);
    status, baseline := e.status, e.lastSaved;
    e.Change(other.title, other.content);
    e.Change(s.title, s.content);
    var retryResult, _, _ := e.FireDebounce("", "", false);
    retry := retryResult;
  }

  /**
   * An HTTP error status is not a failure: a PATCH answered with `ok == false`
   * still advances the baseline and shows "saved".
   */
  method ErrorStatusCountsAsSaved(id: string, t0: string, c0: string, s: Snapshot)
    returns (status: SaveStatus, baseline: Snapshot)
    requires id != "" && !IsBlank(s) && s != Snapshot(t0, c0)
    ensures status == Saved && baseline == s
  {
    var store := new GuestStorage(true, Missing, Missing);
    var e := new AutosaveEngine(Some(id), t0, c0, false, store);
    e.Change(s.title, s.content);
    var _, _, _ := e.FireDebounce("", "", false);
    var _, _ := e.CompleteSave(Responded(false, None));
    status, baseline := e.status, e.lastSaved;
  }

  /**
   * Create, then update: a new note is created by POST; once the caller adopts
   * the reported id (a render with that id), later saves PATCH that id.
   */
  method CreateThenUpdate(s: Snapshot, s2: Snapshot, n: Note)
    returns (first: Option<Request>, created: Option<Note>, second: Option<Request>)
    requires n.id != "" && !IsBlank(s)
    requires !IsBlank(s2) && s2 != s
    ensures first == Some(Post(s.title, s.content))
    ensures created == Some(n)
    ensures second == Some(Patch(n.id, s2.title, s2.content))
  {
    var store := new GuestStorage(true, Missing, Missing);
    var e := new AutosaveEngine(None, "", "", false, store);
    e.Change(s.title, s.content);
    var firstResult, _, _ := e.FireDebounce("", "", false);
    first := firstResult;
    var createdResult, _ := e.CompleteSave(Responded(true, Some(n)));
    created := createdResult;
    e.SwitchNote(Some(n.id), s.title, s.content);
    e.Change(s2.title, s2.content);
    var secondResult, _, _ := e.FireDebounce("", "", false);
    second := secondResult;
  }

  /**
   * Adopting a created note, as written: an edit typed while the POST is in
   * flight becomes the baseline when the caller renders with the new id, so
   * the debounce that follows sends nothing and the edit is never saved.
   */
  method AdoptionLosesEdit(s: Snapshot, s2: Snapshot, n: Note)
    returns (first: Option<Request>, second: Option<Request>, baseline: Snapshot)
    requires n.id != "" && !IsBlank(s) && !IsBlank(s2) && s2 != s
    ensures first == Some(Post(s.title, s.content))
    ensures second.None? && baseline == s2
  {
    var store := new GuestStorage(true, Missing, Missing);
    var e := new AutosaveEngine(None, "", "", false, store);
    e.Change(s.title, s.content);
    var firstResult, _, _ := e.FireDebounce("", "", false);
    first := firstResult;
    e.Change(s2.title, s2.content);
    var _, _ := e.CompleteSave(Responded(true, Some(n)));
    e.SwitchNote(Some(n.id), s2.title, s2.content);
    var secondResult, _, _ := e.FireDebounce("", "", false);
    second := secondResult;
    baseline := e.lastSaved;
  }

  /** The same session with the corrected reset: the edit typed during the POST is sent as a PATCH of the new note. */
  method AdoptionSavesEdit(s: Snapshot, s2: Snapshot, n: Note)
    returns (first: Option<Request>, second: Option<Request>)
    requires n.id != "" && !IsBlank(s) && !IsBlank(s2) && s2 != s
    ensures first == Some(Post(s.title, s.content))
    ensures second == Some(Patch(n.id, s2.title, s2.content))
  {
    var store := new GuestStorage(true, Missing, Missing);
    var e := new AutosaveEngine(None, "", "", false, store);
    e.Change(s.title, s.content);
    var firstResult, _, _ := e.FireDebounce("", "", false);
    first := firstResult;
    e.Change(s2.title, s2.content);
    var _, _ := e.CompleteSave(Responded(true, Some(n)));
    e.AdoptCreatedNote(n.id, s2.title, s2.content);
    var secondResult, _, _ := e.FireDebounce("", "", false);
    second := secondResult;
  }

  /**
   * Overlap guard: a debounce that fires while a save is in flight is dropped,
   * not queued; the newer draft is not sent when the first save completes.
   */
  method InFlightDropsSecondAttempt(id: string, t0: string, c0: string, s: Snapshot, s2: Snapshot)
    returns (first: Option<Request>, second: Option<Request>, baseline: Snapshot, pending: Option<Snapshot>)
    requires id != "" && !IsBlank(s) && s != Snapshot(t0, c0) && s2 != s
    ensures first == Some(Patch(id, s.title, s.content))
    ensures second.None?
    ensures baseline == s && pending.None?
  {
    var store := new GuestStorage(true, Missing, Missing);
    var e := new AutosaveEngine(Some(id), t0, c0, false, store);
    e.Change(s.title, s.content);
    var firstResult, _, _ := e.FireDebounce("", "", false);
    first := firstResult;
    e.Change(s2.title, s2.content);
    var secondResult, _, _ := e.FireDebounce("", "", false);
    second := secondResult;
    var _, _ := e.CompleteSave(Responded(true, None));
    baseline, pending := e.lastSaved, e.debounce;
  }

  /**
   * The same overlap with the corrected debounce callback: the edit typed
   * during the save stays pending and is sent once the first save has settled.
   */
  method InFlightEditSentAfterCompletion(id: string, t0: string, c0: string, s: Snapshot, s2: Snapshot)
    returns (first: Option<Request>, second: Option<Request>, third: Option<Request>)
    requires id != "" && !IsBlank(s) && s != Snapshot(t0, c0) && !IsBlank(s2) && s2 != s
    ensures first == Some(Patch(id, s.title, s.content))
    ensures second.None?
    ensures third == Some(Patch(id, s2.title, s2.content))
  {
    var store := new GuestStorage(true, Missing, Missing);
    var e := new AutosaveEngine(Some(id), t0, c0, false, store);
    e.Change(s.title, s.content);
    var firstResult, _, _ := e.FireDebounceKeepingDraft("", "", false);
    first := firstResult;
    e.Change(s2.title, s2.content);
    var secondResult, _, _ := e.FireDebounceKeepingDraft("", "", false);
    second := secondResult;
    var _, _ := e.CompleteSave(Responded(true, None));
    var thirdResult, _, _ := e.FireDebounceKeepingDraft("", "", false);
    third := thirdResult;
  }

  /**
   * Note switch: an unsaved edit of note A is cancelled when the editor
   * switches to note B; the debounce that follows sends nothing, so A's edit
   * is never persisted against B, and the status is idle.
   */
  method SwitchDropsPendingEdit(a: string, ta: string, ca: string, edit: Snapshot, b: string, tb: string, cb: string)
    returns (sent: Option<Request>, status: SaveStatus)
    requires a != b
    ensures sent.None? && status == Idle
  {
    var store := new GuestStorage(true, Missing, Missing);
    var e := new AutosaveEngine(Some(a), ta, ca, false, store);
    e.Change(edit.title, edit.content);
    e.SwitchNote(Some(b), tb, cb);
    var sentResult, _, _ := e.FireDebounce("", "", false);
    sent := sentResult;
    status := e.status;
  }

  /**
   * Guest create: with no id, a guest save creates a note with the fresh id,
   * puts it in front of the stored list and reports it.
   */
  method GuestCreatePrepends(stored: seq<Note>, s: Snapshot, newId: string, now: string)
    returns (created: Option<Note>, notes: seq<Note>, status: SaveStatus)
    requires !IsBlank(s)
    ensures created.Some? && created.value.id == newId
    ensures created.value.title == s.title && created.value.content == s.content
    ensures notes == [created.value] + stored
    ensures status == Saved
  {
    var store := new GuestStorage(true, Parsed(ToStoredAll(stored)), Missing);
    var e := new AutosaveEngine(None, "", "", true, store);
    e.Change(s.title, s.content);
    var _, c, _ := e.FireDebounce(newId, now, false);
    created := c;
    notes := store.GetGuestNotes();
    status := e.status;
  }

  /** A guest write the browser refuses shows "error", reports nothing and leaves the store as it was. */
  method GuestQuotaErrorKeepsStore(stored: seq<Note>, s: Snapshot, newId: string, now: string)
    returns (created: Option<Note>, notes: seq<Note>, status: SaveStatus)
    requires !IsBlank(s)
    ensures created.None? && notes == stored && status == Error
  {
    var store := new GuestStorage(true, Parsed(ToStoredAll(stored)), Missing);
    var e := new AutosaveEngine(None, "", "", true, store);
    e.Change(s.title, s.content);
    var _, c, _ := e.FireDebounce(newId, now, true);
    created := c;
    notes := store.GetGuestNotes();
    status := e.status;
  }
}
