/**
 * Device-local storage of a guest's notes and notebooks. The pure list
 * operations build new lists; the storage class holds the two storage slots
 * (keys "guest_notes" and "guest_notebooks") that the read and write
 * operations inspect and overwrite wholesale.
 */
module GuestNotes {
  import opened Wrappers
  import opened Records
  import Lists

  /**
   * A note record as found in storage. Records written by older versions may
   * lack the pinned flag, the notebook reference or the tag list; a missing
   * notebook reference and a stored `null` are both `None`.
   */
  datatype StoredNote = StoredNote(
    id: string,
    title: string,
    content: string,
    createdAt: string,
    updatedAt: string,
    isPinned: Option<bool>,
    notebookId: Option<string>,
    tags: Option<seq<string>>)

  /** A storage slot: no item under the key, an item that does not parse, or a parsed list. */
  datatype Slot<T> = Missing | Unparsable | Parsed(items: seq<T>)

  /** The defaults a read fills in: not pinned, no notebook, no tags. */
  function Backfill(n: StoredNote): (r: Note)
    ensures r.id == n.id && r.title == n.title && r.content == n.content
    ensures r.createdAt == n.createdAt && r.updatedAt == n.updatedAt
    ensures r.isPinned == (n.isPinned == Some(true))
    ensures r.notebookId == n.notebookId
    ensures n.tags.None? ==> r.tags == []
    ensures n.tags.Some? ==> r.tags == n.tags.value
  {
    Note(n.id, n.title, n.content, n.createdAt, n.updatedAt,
         n.isPinned.UnwrapOr(false), n.notebookId, n.tags.UnwrapOr([]))
  }

  /** The record `JSON.stringify` writes for a note: every field present. */
  function ToStored(n: Note): (r: StoredNote)
    ensures Backfill(r) == n
    ensures r.isPinned.Some? && r.tags.Some?
  {
    StoredNote(n.id, n.title, n.content, n.createdAt, n.updatedAt,
               Some(n.isPinned), n.notebookId, Some(n.tags))
  }

  function BackfillAll(items: seq<StoredNote>): (r: seq<Note>)
    ensures |r| == |items|
    ensures forall i :: 0 <= i < |items| ==> r[i] == Backfill(items[i])
  {
    seq(|items|, i requires 0 <= i < |items| => Backfill(items[i]))
  }

  function ToStoredAll(notes: seq<Note>): (r: seq<StoredNote>)
    ensures BackfillAll(r) == notes
  {
    seq(|notes|, i requires 0 <= i < |notes| => ToStored(notes[i]))
  }

  /** The fields a caller may supply to `createGuestNote`; `None` stands for an omitted field. */
  datatype NoteDraft = NoteDraft(
    title: string,
    content: string,
    isPinned: Option<bool>,
    notebookId: Option<string>,
    tags: Option<seq<string>>)

  /**
   * `createGuestNote`: `id` stands for the fresh `crypto.randomUUID()` and `now`
   * for the current ISO timestamp.
   */
  function CreateGuestNote(data: NoteDraft, id: string, now: string): (r: Note)
    ensures r.id == id && r.title == data.title && r.content == data.content
    ensures r.createdAt == now && r.updatedAt == r.createdAt
    ensures r.isPinned == (data.isPinned == Some(true))
    ensures r.notebookId == data.notebookId
    ensures r.tags == if data.tags.Some? then data.tags.value else []
  {
    Note(id, data.title, data.content, now, now,
         data.isPinned.UnwrapOr(false), data.notebookId, data.tags.UnwrapOr([]))
  }

  /**
   * The fields an update may supply; `None` stands for `undefined` (leave the
   * field alone). For the notebook reference `Some(None)` is an explicit `null`.
   */
  datatype NotePatch = NotePatch(
    title: Option<string>,
    content: Option<string>,
    isPinned: Option<bool>,
    notebookId: Option<Option<string>>,
    tags: Option<seq<string>>)

  /** `{...n, ...supplied fields, updatedAt: now}`. */
  function ApplyPatch(n: Note, patch: NotePatch, now: string): (r: Note)
    ensures r.id == n.id && r.createdAt == n.createdAt && r.updatedAt == now
    ensures r.title == (if patch.title.Some? then patch.title.value else n.title)
    ensures r.content == (if patch.content.Some? then patch.content.value else n.content)
    ensures r.isPinned == (if patch.isPinned.Some? then patch.isPinned.value else n.isPinned)
    ensures r.notebookId == (if patch.notebookId.Some? then patch.notebookId.value else n.notebookId)
    ensures r.tags == (if patch.tags.Some? then patch.tags.value else n.tags)
  {
    n.(title := patch.title.UnwrapOr(n.title),
       content := patch.content.UnwrapOr(n.content),
       isPinned := patch.isPinned.UnwrapOr(n.isPinned),
       notebookId := patch.notebookId.UnwrapOr(n.notebookId),
       tags := patch.tags.UnwrapOr(n.tags),
       updatedAt := now)
  }

  /** `updateGuestNote`: every record with the given id is patched, all others are kept as they are. */
  function UpdateGuestNote(notes: seq<Note>, id: string, patch: NotePatch, now: string): (r: seq<Note>)
    ensures |r| == |notes|
    ensures forall i :: 0 <= i < |notes| && notes[i].id != id ==> r[i] == notes[i]
    ensures forall i :: 0 <= i < |notes| && notes[i].id == id ==> r[i] == ApplyPatch(notes[i], patch, now)
  {
    seq(|notes|, i requires 0 <= i < |notes| =>
      if notes[i].id == id then ApplyPatch(notes[i], patch, now) else notes[i])
  }

  /** Updating an id that no record carries returns the list unchanged. */
  lemma UpdateAbsentIsIdentity(notes: seq<Note>, id: string, patch: NotePatch, now: string)
    requires forall n :: n in notes ==> n.id != id
    ensures UpdateGuestNote(notes, id, patch, now) == notes
  {
    var r := UpdateGuestNote(notes, id, patch, now);
    forall i | 0 <= i < |notes| ensures r[i] == notes[i] {
      assert notes[i] in notes;
    }
  }

  /** Repeating the same update at the same instant changes nothing more. */
  lemma UpdateIdempotent(notes: seq<Note>, id: string, patch: NotePatch, now: string)
    ensures UpdateGuestNote(UpdateGuestNote(notes, id, patch, now), id, patch, now)
         == UpdateGuestNote(notes, id, patch, now)
  {
  }

  /** `deleteGuestNote`: the records whose id differs, in their original order. */
  function DeleteGuestNote(notes: seq<Note>, id: string): (r: seq<Note>)
    ensures forall n :: n in r <==> n in notes && n.id != id
    ensures forall n :: multiset(r)[n] == if n.id != id then multiset(notes)[n] else 0
  {
    Lists.KeepWhereCounts(notes, (n: Note) => n.id != id);
    Lists.KeepWhere(notes, (n: Note) => n.id != id)
  }

  /** Deleting a record after updating it leaves the same list as deleting it outright. */
  lemma {:induction false} DeleteAfterUpdate(notes: seq<Note>, id: string, patch: NotePatch, now: string)
    ensures DeleteGuestNote(UpdateGuestNote(notes, id, patch, now), id) == DeleteGuestNote(notes, id)
  {
    if notes != [] {
      var u := UpdateGuestNote(notes, id, patch, now);
      assert u[1..] == UpdateGuestNote(notes[1..], id, patch, now);
      DeleteAfterUpdate(notes[1..], id, patch, now);
    }
  }

  /** `createGuestNotebook`, with the fresh id and the timestamp as parameters. */
  function CreateGuestNotebook(name: string, id: string, now: string): (r: Notebook)
    ensures r.id == id && r.name == name
    ensures r.createdAt == now && r.updatedAt == r.createdAt
  {
    Notebook(id, name, now, now)
  }

  /** `renameGuestNotebook`: matching records get the new name and timestamp, nothing else changes. */
  function RenameGuestNotebook(notebooks: seq<Notebook>, id: string, name: string, now: string): (r: seq<Notebook>)
    ensures |r| == |notebooks|
    ensures forall i :: 0 <= i < |notebooks| && notebooks[i].id != id ==> r[i] == notebooks[i]
    ensures forall i :: 0 <= i < |notebooks| && notebooks[i].id == id ==>
      r[i] == notebooks[i].(name := name, updatedAt := now)
  {
    seq(|notebooks|, i requires 0 <= i < |notebooks| =>
      if notebooks[i].id == id then notebooks[i].(name := name, updatedAt := now) else notebooks[i])
  }

  /** `deleteGuestNotebook`: the notebooks whose id differs, in their original order. */
  function DeleteGuestNotebook(notebooks: seq<Notebook>, id: string): (r: seq<Notebook>)
    ensures forall b :: b in r <==> b in notebooks && b.id != id
    ensures forall b :: multiset(r)[b] == if b.id != id then multiset(notebooks)[b] else 0
  {
    Lists.KeepWhereCounts(notebooks, (b: Notebook) => b.id != id);
    Lists.KeepWhere(notebooks, (b: Notebook) => b.id != id)
  }

  /**
   * The browser's local storage as the guest functions see it. `hasWindow` is
   * false outside a browser, where every read yields nothing and every write
   * is skipped.
   */
  class GuestStorage {
    const hasWindow: bool
    var notesSlot: Slot<StoredNote>
    var notebooksSlot: Slot<Notebook>

    constructor (hasWindow: bool, notesSlot: Slot<StoredNote>, notebooksSlot: Slot<Notebook>)
      ensures this.hasWindow == hasWindow
      ensures this.notesSlot == notesSlot && this.notebooksSlot == notebooksSlot
    {
      this.hasWindow := hasWindow;
      this.notesSlot := notesSlot;
      this.notebooksSlot := notebooksSlot;
    }

    /** `getGuestNotes`: the stored notes with defaults filled in, or nothing. */
    function GetGuestNotes(): (notes: seq<Note>)
      reads this
      ensures !hasWindow || !notesSlot.Parsed? ==> notes == []
      ensures hasWindow && notesSlot.Parsed? ==>
        |notes| == |notesSlot.items| &&
        forall i :: 0 <= i < |notes| ==> notes[i] == Backfill(notesSlot.items[i])
    {
      if !hasWindow then []
      else match notesSlot
        case Parsed(items) => BackfillAll(items)
        case _ => []
    }

    /**
     * `saveGuestNotes`: overwrite the slot with the whole list. `quotaExceeded`
     * stands for the browser refusing the write, in which case `setItem`
     * throws and `threw` is set.
     */
    method SaveGuestNotes(notes: seq<Note>, quotaExceeded: bool) returns (threw: bool)
      modifies this
      ensures threw == (hasWindow && quotaExceeded)
      ensures notesSlot == if hasWindow && !quotaExceeded then Parsed(ToStoredAll(notes)) else old(notesSlot)
      ensures notebooksSlot == old(notebooksSlot)
      ensures hasWindow && !threw ==> GetGuestNotes() == notes
    {
      threw := false;
      if !hasWindow {
        return;
      }
      if quotaExceeded {
        threw := true;
        return;
      }
      notesSlot := Parsed(ToStoredAll(notes));
    }

    /** `clearGuestNotes`: remove the notes item. */
    method ClearGuestNotes()
      modifies this
      ensures notesSlot == if hasWindow then Missing else old(notesSlot)
      ensures notebooksSlot == old(notebooksSlot)
      ensures hasWindow ==> GetGuestNotes() == []
    {
      if hasWindow {
        notesSlot := Missing;
      }
    }

    /** `getGuestNotebooks`: the parsed list as stored (no defaults to fill), or nothing. */
    function GetGuestNotebooks(): (notebooks: seq<Notebook>)
      reads this
      ensures notebooks == if hasWindow && notebooksSlot.Parsed? then notebooksSlot.items else []
    {
      if !hasWindow then []
      else match notebooksSlot
        case Parsed(items) => items
        case _ => []
    }

    /** `saveGuestNotebooks`: overwrite the notebooks item with the whole list. */
    method SaveGuestNotebooks(notebooks: seq<Notebook>, quotaExceeded: bool) returns (threw: bool)
      modifies this
      ensures threw == (hasWindow && quotaExceeded)
      ensures notebooksSlot == if hasWindow && !quotaExceeded then Parsed(notebooks) else old(notebooksSlot)
      ensures notesSlot == old(notesSlot)
      ensures hasWindow && !threw ==> GetGuestNotebooks() == notebooks
    {
      threw := false;
      if !hasWindow {
        return;
      }
      if quotaExceeded {
        threw := true;
        return;
      }
      notebooksSlot := Parsed(notebooks);
    }
  }
}
