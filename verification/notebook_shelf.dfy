/**
 * The notebook shelf: one book per notebook, whose width grows with the
 * number of notes filed in it, whose cover and height cycle through fixed
 * tables, whose click selects or deselects it, and whose tooltip names the
 * notebook and its note count.
 */
module NotebookShelf {
  import opened Wrappers
  import opened Records
  import Ascii

  /** `note.notebookId` is truthy: present and not empty. */
  predicate Filed(note: Note) {
    note.notebookId.Some? && note.notebookId.value != ""
  }

  /** The number of notes filed under `id`. */
  function CountOf(notes: seq<Note>, id: string): nat {
    if notes == [] then 0
    else
      var last := notes[|notes| - 1];
      CountOf(notes[..|notes| - 1], id) + (if Filed(last) && last.notebookId.value == id then 1 else 0)
  }

  /** The number of notes filed under some notebook. */
  function FiledCount(notes: seq<Note>): nat {
    if notes == [] then 0
    else FiledCount(notes[..|notes| - 1]) + (if Filed(notes[|notes| - 1]) then 1 else 0)
  }

  /** The sum of the values of `m`. */
  ghost function Total(m: map<string, nat>): nat
    decreases |m.Keys|
  {
    if m == map[] then 0
    else
      var k :| k in m;
      assert (m - {k}).Keys == m.Keys - {k};
      m[k] + Total(m - {k})
  }

  /** The sum does not depend on which key is taken out first. */
  lemma {:induction false} TotalWithout(m: map<string, nat>, k: string)
    requires k in m
    ensures Total(m) == m[k] + Total(m - {k})
    decreases |m.Keys|
  {
    var j :| j in m && Total(m) == m[j] + Total(m - {j});
    if j != k {
      assert (m - {j}).Keys == m.Keys - {j};
      assert (m - {k}).Keys == m.Keys - {k};
      TotalWithout(m - {j}, k);
      TotalWithout(m - {k}, j);
      assert m - {j} - {k} == m - {k} - {j};
    }
  }

  /** Adding one to a key's count (creating it at 1) adds one to the sum. */
  lemma TotalIncrement(m: map<string, nat>, k: string)
    ensures Total(m[k := if k in m then m[k] + 1 else 1]) == Total(m) + 1
  {
    var m' := m[k := if k in m then m[k] + 1 else 1];
    TotalWithout(m', k);
    assert m' - {k} == m - {k};
    if k in m {
      TotalWithout(m, k);
    } else {
      assert m - {k} == m;
    }
  }

  /**
   * `noteCounts`: for each notebook id, the number of notes filed in it.
   * Ids with no note are absent, and the counts add up to the filed notes.
   */
  method NoteCounts(notes: seq<Note>) returns (counts: map<string, nat>)
    ensures forall id :: id in counts <==> CountOf(notes, id) > 0
    ensures forall id :: id in counts ==> counts[id] == CountOf(notes, id)
    ensures Total(counts) == FiledCount(notes)
  {
    counts := map[];
    for i := 0 to |notes|
      invariant forall id :: id in counts <==> CountOf(notes[..i], id) > 0
      invariant forall id :: id in counts ==> counts[id] == CountOf(notes[..i], id)
      invariant Total(counts) == FiledCount(notes[..i])
    {
      var note := notes[i];
      assert notes[..i + 1][..i] == notes[..i];
      if note.notebookId.Some? && note.notebookId.value != "" {
        var id := note.notebookId.value;
        TotalIncrement(counts, id);
        counts := counts[id := (if id in counts then counts[id] else 0) + 1];
      }
    }
    assert notes[..|notes|] == notes;
  }

  /** A count never exceeds the number of filed notes. */
  lemma {:induction false} CountAtMostFiled(notes: seq<Note>, id: string)
    ensures CountOf(notes, id) <= FiledCount(notes)
  {
    if notes != [] {
      CountAtMostFiled(notes[..|notes| - 1], id);
    }
  }

  /** `getBookWidth`: more notes, thicker book. */
  function BookWidth(count: nat): (width: nat)
    ensures width in {56, 64, 72}
    ensures width == 72 <==> count >= 10
    ensures width == 56 <==> count < 5
  {
    if count >= 10 then 72
    else if count >= 5 then 64
    else 56
  }

  lemma BookWidthMonotone(a: nat, b: nat)
    requires a <= b
    ensures BookWidth(a) <= BookWidth(b)
  {
  }

  /** One entry of the cover table: CSS classes of the book's leather. */
  datatype Cover = Cover(base: string, ring: string, darkness: string, darknessHover: string)

  const LEATHER_COVERS: seq<Cover> := [
    Cover("bg-primary", "ring-primary/40", "bg-black/[0.32]", "bg-black/[0.24]"),
    Cover("bg-secondary", "ring-secondary/40", "bg-black/[0.28]", "bg-black/[0.20]"),
    Cover("bg-accent", "ring-accent/40", "bg-black/[0.30]", "bg-black/[0.22]"),
    Cover("bg-primary/85", "ring-primary/30", "bg-black/[0.38]", "bg-black/[0.30]"),
    Cover("bg-secondary/85", "ring-secondary/30", "bg-black/[0.34]", "bg-black/[0.26]"),
    Cover("bg-accent/85", "ring-accent/30", "bg-black/[0.36]", "bg-black/[0.28]")
  ]

  /** Book heights in pixels. */
  const BOOK_HEIGHTS: seq<nat> := [146, 156, 138, 152, 142, 158, 134, 150]

  /** The cover of the book at position `i`. */
  function CoverAt(i: nat): (c: Cover)
    ensures c in LEATHER_COVERS
    ensures i < |LEATHER_COVERS| ==> c == LEATHER_COVERS[i]
  {
    LEATHER_COVERS[i % |LEATHER_COVERS|]
  }

  /** The height of the book at position `i`. */
  function HeightAt(i: nat): (h: nat)
    ensures h in BOOK_HEIGHTS
    ensures 134 <= h <= 158
    ensures i < |BOOK_HEIGHTS| ==> h == BOOK_HEIGHTS[i]
  {
    BOOK_HEIGHTS[i % |BOOK_HEIGHTS|]
  }

  /** Covers repeat every 6 books, heights every 8. */
  lemma CyclesArePeriodic(i: nat)
    ensures CoverAt(i + |LEATHER_COVERS|) == CoverAt(i)
    ensures HeightAt(i + |BOOK_HEIGHTS|) == HeightAt(i)
  {
    assert (i + 6) % 6 == i % 6;
    assert (i + 8) % 8 == i % 8;
  }

  /** What a click on notebook `id` selects: nothing if it is the active one, itself otherwise. */
  function SelectOnClick(active: Option<string>, id: string): (r: Option<string>)
    ensures r.None? <==> active == Some(id)
    ensures r.Some? ==> r.value == id
  {
    if active == Some(id) then None else Some(id)
  }

  /** Two clicks on the same book return the selection to that book or to nothing. */
  lemma ClickTwice(active: Option<string>, id: string)
    ensures SelectOnClick(SelectOnClick(active, id), id) == (if active == Some(id) then Some(id) else None)
  {
  }

  /** `noteCounts[nb.id] || 0`. */
  function DisplayCount(counts: map<string, nat>, id: string): (count: nat)
    ensures id in counts ==> count == counts[id]
    ensures id !in counts ==> count == 0
  {
    if id in counts then counts[id] else 0
  }

  /** The noun after the count: singular exactly for one note. */
  function NoteNoun(count: nat): (noun: string)
    ensures noun == "note" <==> count == 1
    ensures noun == "notes" <==> count != 1
  {
    "note" + (if count != 1 then "s" else "")
  }

  /** The spine tooltip: the name, then the count and its noun in parentheses. */
  function SpineTitle(name: string, count: nat): (title: string)
    ensures |title| == |name| + 2 + |Ascii.Decimal(count)| + 1 + |NoteNoun(count)| + 1
    ensures title[..|name|] == name
  {
    name + " (" + Ascii.Decimal(count) + " " + NoteNoun(count) + ")"
  }

  /** The digits in the tooltip read back as the count. */
  lemma SpineTitleCount(name: string, count: nat)
    ensures var digits := SpineTitle(name, count)[|name| + 2..|name| + 2 + |Ascii.Decimal(count)|];
      (forall i :: 0 <= i < |digits| ==> Ascii.IsDigit(digits[i])) && Ascii.DigitsValue(digits) == count
  {
    var title := SpineTitle(name, count);
    assert title[|name| + 2..|name| + 2 + |Ascii.Decimal(count)|] == Ascii.Decimal(count);
    Ascii.DecimalRoundTrip(count);
  }

  /** One rendered book. */
  datatype Book = Book(
    id: string,
    cover: Cover,
    height: nat,
    width: nat,
    count: nat,
    active: bool,
    onClickSelects: Option<string>,
    title: string)

  /** The shelf: the empty-library prompt, or one book per notebook in order. */
  datatype Shelf = EmptyLibrary | Books(books: seq<Book>)

  /** The book for notebook `nb` at position `i`. */
  function BookAt(i: nat, nb: Notebook, counts: map<string, nat>, active: Option<string>): (book: Book)
    ensures book.id == nb.id && book.count == DisplayCount(counts, nb.id)
    ensures book.width in {56, 64, 72}
    ensures book.active <==> book.onClickSelects.None?
    ensures !book.active ==> book.onClickSelects == Some(nb.id)
    ensures |nb.name| < |book.title| && book.title[..|nb.name|] == nb.name
  {
    var count := DisplayCount(counts, nb.id);
    Book(nb.id, CoverAt(i), HeightAt(i), BookWidth(count), count, active == Some(nb.id),
         SelectOnClick(active, nb.id), SpineTitle(nb.name, count))
  }

  /** The shelf rendered from the notebooks, the notes and the active notebook. */
  method RenderShelf(notebooks: seq<Notebook>, notes: seq<Note>, active: Option<string>) returns (shelf: Shelf)
    ensures notebooks == [] <==> shelf.EmptyLibrary?
    ensures shelf.Books? ==> |shelf.books| == |notebooks|
    ensures shelf.Books? ==> forall i :: 0 <= i < |notebooks| ==>
      var book := shelf.books[i];
      && book.id == notebooks[i].id
      && book.count == CountOf(notes, notebooks[i].id)
      && book.width == BookWidth(CountOf(notes, notebooks[i].id))
      && book.cover == CoverAt(i) && book.height == HeightAt(i)
      && (book.active <==> active == Some(notebooks[i].id))
      && book.onClickSelects == SelectOnClick(active, notebooks[i].id)
      && book.title == SpineTitle(notebooks[i].name, CountOf(notes, notebooks[i].id))
  {
    var counts := NoteCounts(notes);
    if |notebooks| == 0 {
      return EmptyLibrary;
    }
    shelf := Books(seq(|notebooks|, i requires 0 <= i < |notebooks| => BookAt(i, notebooks[i], counts, active)));
  }
}
