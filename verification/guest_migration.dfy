/**
 * The client half of the guest-to-account migration (`migrateGuestNotes`),
 * called after a successful sign-up: post every guest note, clear the guest
 * store when the response is ok, swallow every failure.
 */
module GuestMigration {
  import opened Wrappers
  import opened Records
  import opened Fetch
  import opened GuestNotes
  import MigrateRoute
  import opened Numbers

  /** The request body `JSON.stringify({notes})` as the server parses it. */
  function Encode(notes: seq<Note>): (body: MigrateRoute.RequestBody)
    ensures body.JsonValue? && body.notes.AnArray? && |body.notes.items| == |notes|
    ensures forall i :: 0 <= i < |notes| ==>
      body.notes.items[i] == MigrateRoute.GuestItem(Some(notes[i].title), Some(notes[i].content))
  {
    MigrateRoute.JsonValue(MigrateRoute.AnArray(
      seq(|notes|, i requires 0 <= i < |notes| => MigrateRoute.GuestItem(Some(notes[i].title), Some(notes[i].content)))))
  }

  /**
   * `migrateGuestNotes`, as written. `response` stands for what the `fetch`
   * returns; `request` is the list posted, if any. Every exception is caught,
   * so nothing escapes.
   */
  method MigrateGuestNotes(store: GuestStorage, response: FetchOutcome) returns (request: Option<seq<Note>>)
    modifies store
    ensures old(store.GetGuestNotes()) == [] ==> request.None?
    ensures old(store.GetGuestNotes()) != [] ==> request == Some(old(store.GetGuestNotes()))
    ensures store.notesSlot ==
      if request.Some? && response.Responded? && response.ok && store.hasWindow then Missing else old(store.notesSlot)
    ensures request.Some? && response.Responded? && response.ok && store.hasWindow ==> store.GetGuestNotes() == []
    ensures store.notebooksSlot == old(store.notebooksSlot)
  {
    var guestNotes := store.GetGuestNotes();
    if guestNotes == [] {
      return None;
    }
    request := Some(guestNotes);
    match response {
      case NetworkError =>
        // caught: the notes stay in storage
      case Responded(ok, _) =>
        if ok {
          store.ClearGuestNotes();
        }
    }
  }

  /** The server inserts the first min(n, 100) posted notes, title and content unchanged. */
  lemma ServerInsertsPrefix(userId: string, notes: seq<Note>)
    requires notes != []
    ensures var r := MigrateRoute.Post(Some(MigrateRoute.Session(userId)), Encode(notes));
      && r.Respond? && r.status == 201 && r.body.CreatedRows?
      && |r.body.rows| == Min(|notes|, MigrateRoute.MIGRATE_LIMIT)
      && forall i :: 0 <= i < |r.body.rows| ==>
           r.body.rows[i] == MigrateRoute.NoteRow(userId, notes[i].title, notes[i].content)
  {
    var r := MigrateRoute.Post(Some(MigrateRoute.Session(userId)), Encode(notes));
    forall i | 0 <= i < |r.body.rows|
      ensures r.body.rows[i] == MigrateRoute.NoteRow(userId, notes[i].title, notes[i].content)
    {
      var item := Encode(notes).notes.items[i];
      assert MigrateRoute.OrEmpty(item.title) == notes[i].title;
    }
  }

  /**
   * The response status as `fetch` reports it: `ok` exactly for 2xx. An
   * exception in the handler is answered with status 500.
   */
  function ResponseFor(r: MigrateRoute.RouteResult): (outcome: FetchOutcome)
    ensures outcome.Responded?
    ensures outcome.ok <==> r.Respond? && 200 <= r.status < 300
  {
    if r.Respond? then Responded(200 <= r.status < 300, None) else Responded(false, None)
  }

  /**
   * Sign-up with more than 100 guest notes, as written: the server inserts
   * 100 and answers 201, the client then clears the whole store, so the notes
   * after the first 100 exist nowhere.
   */
  method MigrationLosesOverflow(userId: string, notes: seq<Note>)
    returns (inserted: seq<MigrateRoute.NoteRow>, remaining: seq<Note>)
    requires |notes| > MigrateRoute.MIGRATE_LIMIT
    ensures |inserted| == MigrateRoute.MIGRATE_LIMIT && remaining == []
    ensures |inserted| + |remaining| < |notes|
  {
    var store := new GuestStorage(true, Parsed(ToStoredAll(notes)), Missing);
    ServerInsertsPrefix(userId, notes);
    var r := MigrateRoute.Post(Some(MigrateRoute.Session(userId)), Encode(notes));
    var request := MigrateGuestNotes(store, ResponseFor(r));
    inserted := r.body.rows;
    remaining := store.GetGuestNotes();
  }

  /**
   * The migration with the cap applied on the client as well: post at most
   * the first 100 notes and, on an ok response, keep the notes that were not
   * posted. `quotaExceeded` stands for the write of the remainder throwing,
   * which the `catch` swallows.
   */
  method MigrateGuestNotesCapped(store: GuestStorage, response: FetchOutcome, quotaExceeded: bool)
    returns (request: Option<seq<Note>>)
    modifies store
    ensures var notes := old(store.GetGuestNotes());
      && (notes == [] ==> request.None? && store.notesSlot == old(store.notesSlot))
      && (notes != [] ==> request == Some(notes[..Min(|notes|, MigrateRoute.MIGRATE_LIMIT)]))
    ensures !(request.Some? && response.Responded? && response.ok) ==> store.notesSlot == old(store.notesSlot)
    ensures store.notebooksSlot == old(store.notebooksSlot)
    ensures var notes := old(store.GetGuestNotes());
      store.hasWindow && request.Some? && response.Responded? && response.ok ==>
        store.GetGuestNotes() == (if quotaExceeded && |notes| > MigrateRoute.MIGRATE_LIMIT then notes
                                  else notes[|request.value|..])
  {
    var guestNotes := store.GetGuestNotes();
    if guestNotes == [] {
      return None;
    }
    var batch := guestNotes[..Min(|guestNotes|, MigrateRoute.MIGRATE_LIMIT)];
    request := Some(batch);
    if response.Responded? && response.ok {
      var rest := guestNotes[|batch|..];
      if rest == [] {
        store.ClearGuestNotes();
      } else {
        var threw := store.SaveGuestNotes(rest, quotaExceeded);
      }
    }
  }

  /**
   * Sign-up with more than 100 guest notes, corrected: the server inserts the
   * first 100, the rest stay in the guest store, and no note is lost.
   */
  method CappedMigrationKeepsOverflow(userId: string, notes: seq<Note>)
    returns (inserted: seq<MigrateRoute.NoteRow>, remaining: seq<Note>)
    requires |notes| > MigrateRoute.MIGRATE_LIMIT
    ensures |inserted| == MigrateRoute.MIGRATE_LIMIT && remaining == notes[MigrateRoute.MIGRATE_LIMIT..]
    ensures |inserted| + |remaining| == |notes|
    ensures forall i :: 0 <= i < |inserted| ==> inserted[i] == MigrateRoute.NoteRow(userId, notes[i].title, notes[i].content)
  {
    var store := new GuestStorage(true, Parsed(ToStoredAll(notes)), Missing);
    var batch := notes[..MigrateRoute.MIGRATE_LIMIT];
    ServerInsertsPrefix(userId, batch);
    var r := MigrateRoute.Post(Some(MigrateRoute.Session(userId)), Encode(batch));
    var request := MigrateGuestNotesCapped(store, ResponseFor(r), false);
    assert request == Some(batch);  // the server answered the batch the client posted
    inserted := r.body.rows;
    remaining := store.GetGuestNotes();
  }
}
