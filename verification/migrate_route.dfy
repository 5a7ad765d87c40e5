/**
 * The server handler `POST /api/notes/migrate`: bulk-create the posted guest
 * notes for the signed-in user. The insert is the handler's only effect; the
 * model returns the rows it asks the database to insert in place of the rows
 * the database returns.
 */
module MigrateRoute {
  import opened Wrappers
  import opened Numbers

  /** An element of the posted `notes` array. Only title and content are read; `None` is a missing or falsy value. */
  datatype GuestItem = GuestItem(title: Option<string>, content: Option<string>)

  /** The `notes` property of the body: an array, or anything else (absent included). */
  datatype NotesValue = NotAnArray | AnArray(items: seq<GuestItem>)

  /** The request body: one that `request.json()` rejects (or `null`), or a parsed value. */
  datatype RequestBody = MalformedJson | JsonValue(notes: NotesValue)

  datatype Session = Session(userId: string)

  /** The values inserted for one note; every other column takes its database default. */
  datatype NoteRow = NoteRow(userId: string, title: string, content: string)

  datatype ResponseBody = ErrorMessage(message: string) | CreatedRows(rows: seq<NoteRow>)

  /** The handler's response, or an exception it does not catch. */
  datatype RouteResult = Respond(status: int, body: ResponseBody) | Threw

  /** At most this many notes are inserted per request. */
  const MIGRATE_LIMIT: nat := 100

  /** `value || ""`. */
  function OrEmpty(value: Option<string>): (r: string)
    ensures value.Some? ==> r == value.value
    ensures value.None? ==> r == ""
  {
    if value.Some? && value.value != "" then value.value else ""
  }

  function ToRow(userId: string, item: GuestItem): NoteRow {
    NoteRow(userId, OrEmpty(item.title), OrEmpty(item.content))
  }

  /** `POST`: authorise, validate, cap at 100, insert with defaults. */
  function Post(session: Option<Session>, body: RequestBody): (r: RouteResult)
    ensures session.None? ==> r == Respond(401, ErrorMessage("Unauthorized"))
    ensures session.Some? && body.MalformedJson? ==> r.Threw?
    ensures session.Some? && body.JsonValue? && (body.notes.NotAnArray? || body.notes.items == []) ==>
      r == Respond(400, ErrorMessage("No notes to migrate"))
    ensures session.Some? && body.JsonValue? && body.notes.AnArray? && body.notes.items != [] ==>
      && r.Respond? && r.status == 201 && r.body.CreatedRows?
      && |r.body.rows| == Min(|body.notes.items|, MIGRATE_LIMIT)
      && forall i :: 0 <= i < |r.body.rows| ==> r.body.rows[i] == ToRow(session.value.userId, body.notes.items[i])
  {
    if session.None? then Respond(401, ErrorMessage("Unauthorized"))
    else if body.MalformedJson? then Threw
    else if body.notes.NotAnArray? || body.notes.items == [] then Respond(400, ErrorMessage("No notes to migrate"))
    else
      var toMigrate := body.notes.items[..Min(|body.notes.items|, MIGRATE_LIMIT)];
      var rows := seq(|toMigrate|, i requires 0 <= i < |toMigrate| => ToRow(session.value.userId, toMigrate[i]));
      Respond(201, CreatedRows(rows))
  }

}
