# Online notepad: autosave engine and note-handling logic, in Dafny

This project models the core of a themed notes application in which users, or
anonymous guests whose notes live in browser storage, write short rich-text
notes. Most of the model concerns the **autosave engine** of the note editor
(the `useAutosave` hook). It schedules a debounced save after every edit. It
compares the draft with the last saved title and content. It persists the draft
either to the note service (PATCH or POST) or to the guest's local store. It
drives the status shown in the editor through `idle`, `saving`, `saved` and
`error`.

Around the engine sit the smaller pieces of logic the application relies on:

- the guest store: notes and notebooks kept as whole lists under two storage keys;
- the migration of guest notes into a new account, both the client call and the server route;
- tag editing;
- the text shown on note cards;
- the per-notebook note counts of the notebook shelf;
- the password-strength meter;
- the avatar initials;
- the theme table.

Layout, one module per source file plus shared helpers:

| file | module | models |
|---|---|---|
| `autosave.dfy` | `Autosave` | `src/hooks/use-autosave.ts`, as the class `AutosaveEngine` |
| `autosave_scenarios.dfy` | `AutosaveScenarios` | event sequences run against a fresh engine |
| `guest_notes.dfy` | `GuestNotes` | `src/lib/guest-notes.ts`; the storage slots are the class `GuestStorage` |
| `guest_migration.dfy` | `GuestMigration` | `src/lib/migrate-guest-notes.ts` |
| `migrate_route.dfy` | `MigrateRoute` | `src/app/api/notes/migrate/route.ts` |
| `tag_input.dfy` | `TagInput` | `src/components/tag-input.tsx`; the input field is the class `TagField` |
| `note_card.dfy` | `NoteCard` | `src/components/note-card.tsx` |
| `notebook_shelf.dfy` | `NotebookShelf` | `src/components/notebook-shelf.tsx` |
| `register_form.dfy` | `RegisterForm` | `getPasswordStrength` in `src/components/register-form.tsx` |
| `user_menu.dfy` | `UserMenu` | the `initials` of `src/components/user-menu.tsx` |
| `themes.dfy` | `Themes` | `src/lib/themes.ts` |
| `ascii.dfy`, `lists.dfy`, `numbers.dfy`, `records.dfy`, `fetch.dfy`, `wrappers.dfy` | helpers | JavaScript `trim`, case mapping and `String(n)`; `filter`; `Math.min`; the note and notebook records; the outcome of a `fetch`; `Option` |

How the autosave engine is modelled:

- Each React ref becomes a field: `lastSaved`, `saving`, `debounce`, `savedTimer`.
- Each effect or callback that fires becomes a method.
- A timer is an explicit pending slot. The debounce slot holds the title and content its callback closed over. Time is left out: the order of method calls is the order of events.
- A remote save is split in two. `FireDebounce` starts the request and records it in `inFlight`. `CompleteSave(outcome)` settles it.
- A guest save has no `await`, so it runs to completion inside `FireDebounce`.
- The fresh UUID, the current timestamp and a storage write that throws are parameters.

Facts about the code that the model keeps:

- The engine compares and persists only the title and the content. Pinning, the notebook and the tags are not part of the snapshot.
- Saves start only from the debounce timer; the hook returns nothing but the status.
- A debounce that fires while a save is in flight is dropped, not retried (`src/hooks/use-autosave.ts:64`). The caller's `onNoteCreated` and `onNotesChanged` may keep their identity across renders, and `isGuest` may stay fixed. Under those conditions nothing reschedules the dropped draft, and `AutosaveScenarios.InFlightDropsSecondAttempt` shows it staying unsent. See "Left out" and "Findings".
- `fetch` does not reject on an HTTP error status, so a non-ok PATCH or POST still counts as saved (`AutosaveScenarios.ErrorStatusCountsAsSaved`).
- The initialisation effect (`src/hooks/use-autosave.ts:45-50`) runs before the debounce effect, so the guard at line 139 finds the engine initialised and a debounce is scheduled at mount, whatever the comment at line 138 says. The constructor follows the code. That debounce carries the baseline itself and sends nothing.
- The migration client posts every guest note; the cap of 100 exists only in the server route. See "Findings".
- The shelf calls `useRef`, `useState`, `useCallback` and `useEffect` after its early return for an empty library (`src/components/notebook-shelf.tsx:58` and `:76-98`). Those hooks drive only the scroll arrows, which are not modelled, so the model is unaffected. In React, a shelf whose notebook list goes from empty to non-empty calls a different number of hooks between renders.

## Model

| member | source | states |
|---|---|---|
| Autosave.BlankIsTrimmedEmpty | src/hooks/use-autosave.ts:67 | the empty-note guard `IsBlank` holds exactly when both the trimmed title and the trimmed content are empty |
| Autosave.Admits | src/hooks/use-autosave.ts:64-75 | the three early returns as written, on trimmed fields: a save goes ahead exactly when none is in flight, the draft is not blank and it differs from the baseline |
| Autosave.RequestFor | src/hooks/use-autosave.ts:99-110 | a truthy note id gives a PATCH of that id, anything else a POST; either carries exactly the title and content being saved |
| Autosave.GuestWrite | src/hooks/use-autosave.ts:82-95 | with an id, the list keeps its length and order, records with another id are unchanged, and records with that id get the draft's title and content and the new timestamp; without an id, the list read gains one note in front, carrying the fresh id, the draft, the timestamp as both dates, no pin, no notebook and no tags |
| Autosave.Completes | src/hooks/use-autosave.ts:99-131 | a rejected `fetch` ends in the `catch`; any response to a PATCH and any non-ok response complete the `try` block; an ok POST completes it exactly when its body parses |
| Autosave.CreatedBy | src/hooks/use-autosave.ts:111-114 | a note is reported only for a POST whose response is ok, and it is the parsed body |
| Autosave.AutosaveEngine.constructor | src/hooks/use-autosave.ts:34-50 | mount: status idle, the mount-time draft is the baseline, nothing in flight, and a first debounce is pending with the mount-time values |
| Autosave.AutosaveEngine.Change | src/hooks/use-autosave.ts:137-150 | an edit cancels the pending debounce and schedules exactly one with the latest values; a render with the same values changes nothing, given callbacks of stable identity (see "Left out"); baseline, status and in-flight save are untouched |
| Autosave.AutosaveEngine.SwitchNote | src/hooks/use-autosave.ts:52-60 | a new note id makes the current draft the baseline, sets status idle and reschedules the debounce with the current draft; a request in flight is unaffected; the same id behaves as `Change` |
| Autosave.AutosaveEngine.PersistToGuestStore | src/hooks/use-autosave.ts:81-97 | the guest branch reads the stored list, writes back `GuestWrite` of it, and reports the new note only when the write did not throw |
| Autosave.AutosaveEngine.FireDebounce | src/hooks/use-autosave.ts:62-131 | the pending debounce is consumed. While a save is in flight, for a blank draft, or for a draft equal to the baseline, nothing else changes. Otherwise a remote save sends `RequestFor` and shows saving. A guest save writes the store and either advances the baseline, shows saved and restarts the saved timer, or shows error and keeps the baseline |
| Autosave.AutosaveEngine.CompleteSave | src/hooks/use-autosave.ts:99-131 | the in-flight flag is always cleared. A completed try block (any HTTP response, except an ok POST whose body does not parse) advances the baseline to the values sent, reports the notes changed, shows saved and restarts the one saved timer. A throw shows error and keeps the baseline |
| Autosave.AutosaveEngine.SavedTimerFire | src/hooks/use-autosave.ts:124-126 | a pending saved timer sets the status to idle whatever it is by then; nothing else changes |
| Autosave.AutosaveEngine.Unmount | src/hooks/use-autosave.ts:152-158 | both timers are cancelled; the baseline, the status and an in-flight save are untouched |
| AutosaveScenarios.DebounceCoalesces | src/hooks/use-autosave.ts:137-150 | any run of edits leaves one pending save carrying the last edit; a second fire sends nothing |
| AutosaveScenarios.ResaveIsNoOp | src/hooks/use-autosave.ts:70-75 | once a draft is saved, a later debounce with the same draft sends nothing; the saved timer brings the status back to idle |
| AutosaveScenarios.FailureKeepsBaseline | src/hooks/use-autosave.ts:118-131 | a network failure shows error, keeps the old baseline, and the same draft is sent again on the next debounce |
| AutosaveScenarios.ErrorStatusCountsAsSaved | src/hooks/use-autosave.ts:99-120 | a PATCH answered with an error status still shows saved and advances the baseline |
| Autosave.AutosaveEngine.AdoptCreatedNote | src/hooks/use-autosave.ts:52-60 | the corrected reset for adopting a just-created note: the id changes and the debounce is rescheduled, while the baseline and status stay as they were |
| AutosaveScenarios.AdoptionLosesEdit | src/hooks/use-autosave.ts:52-60 | with the reset as written, an edit typed while the POST is in flight becomes the baseline once the new id is adopted, and the next debounce sends nothing |
| AutosaveScenarios.AdoptionSavesEdit | src/hooks/use-autosave.ts:52-60 | with the corrected reset, the same session sends that edit as a PATCH of the created note |
| AutosaveScenarios.CreateThenUpdate | src/hooks/use-autosave.ts:99-116 | without an id the first save is a POST and reports the created note; once its id is adopted, the next save is a PATCH of that id |
| AutosaveScenarios.InFlightDropsSecondAttempt | src/hooks/use-autosave.ts:64 | with callbacks of stable identity, a debounce during a save in flight sends nothing and is not queued; after completion the baseline is the first draft and no debounce is pending |
| Autosave.AutosaveEngine.FireDebounceKeepingDraft | src/hooks/use-autosave.ts:62-64 | the corrected callback: while a save is in flight the pending draft is kept and nothing else changes; otherwise its new state is that of `FireDebounce` in each case: a guard that fails changes nothing, an admitted remote draft is sent as `RequestFor` with status saving, and an admitted guest draft writes `GuestWrite`'s list and either advances the baseline or shows error |
| AutosaveScenarios.InFlightEditSentAfterCompletion | src/hooks/use-autosave.ts:62-64 | with the corrected callback, the edit typed during a save is sent as a PATCH once the first save has settled |
| AutosaveScenarios.SwitchDropsPendingEdit | src/hooks/use-autosave.ts:53-60 | an unsaved edit of one note is never sent after switching to another; the status is idle |
| AutosaveScenarios.GuestCreatePrepends | src/hooks/use-autosave.ts:89-97 | a guest save without an id stores the new note in front of the existing ones, reports it and shows saved |
| AutosaveScenarios.GuestQuotaErrorKeepsStore | src/hooks/use-autosave.ts:127-128 | a refused storage write shows error, reports nothing and leaves the stored notes as they were |
| GuestNotes.Backfill | src/lib/guest-notes.ts:30-35 | a read keeps every stored field and fills a missing pinned flag, notebook or tag list with false, null or the empty list |
| GuestNotes.ToStored | src/lib/guest-notes.ts:41-44 | a note written to storage reads back as the same note |
| GuestNotes.BackfillAll | src/lib/guest-notes.ts:30-35 | the read list has one note per stored record, in order, each backfilled |
| GuestNotes.ToStoredAll | src/lib/guest-notes.ts:43 | a list written to storage reads back as the same list |
| GuestNotes.CreateGuestNote | src/lib/guest-notes.ts:51-69 | the new note carries the given id, title and content, defaults for omitted fields, and equal creation and update times |
| GuestNotes.ApplyPatch | src/lib/guest-notes.ts:84-92 | a patched note changes only the supplied fields and the update time; id and creation time are kept |
| GuestNotes.UpdateGuestNote | src/lib/guest-notes.ts:71-95 | length and order are kept; records with another id are identical; matching records are patched |
| GuestNotes.UpdateAbsentIsIdentity | src/lib/guest-notes.ts:82-94 | updating an id no record carries returns the list unchanged |
| GuestNotes.UpdateIdempotent | src/lib/guest-notes.ts:82-94 | applying the same update twice at the same instant equals applying it once |
| GuestNotes.DeleteGuestNote | src/lib/guest-notes.ts:97-99 | exactly the records whose id differs remain, each as often as before |
| GuestNotes.DeleteAfterUpdate | src/lib/guest-notes.ts:82-99 | deleting a note after updating it leaves the same list as deleting it outright |
| GuestNotes.CreateGuestNotebook | src/lib/guest-notes.ts:118-121 | the new notebook carries the given id and name and equal creation and update times |
| GuestNotes.RenameGuestNotebook | src/lib/guest-notes.ts:130-140 | length and order are kept; only the name and update time of matching notebooks change |
| GuestNotes.DeleteGuestNotebook | src/lib/guest-notes.ts:123-128 | exactly the notebooks whose id differs remain, each as often as before |
| GuestNotes.GuestStorage.GetGuestNotes | src/lib/guest-notes.ts:24-39 | no window, no item or an unparsable item gives the empty list; otherwise every stored record, backfilled, in order |
| GuestNotes.GuestStorage.SaveGuestNotes | src/lib/guest-notes.ts:41-44 | outside a browser nothing happens; a refused write throws and changes nothing; otherwise the list reads back unchanged |
| GuestNotes.GuestStorage.ClearGuestNotes | src/lib/guest-notes.ts:46-49 | in a browser the notes item is removed and a read gives the empty list; notebooks are untouched |
| GuestNotes.GuestStorage.GetGuestNotebooks | src/lib/guest-notes.ts:103-111 | the parsed list as stored, or the empty list without a window, an item, or a parsable item |
| GuestNotes.GuestStorage.SaveGuestNotebooks | src/lib/guest-notes.ts:113-116 | the notebooks read back unchanged unless the write is refused or there is no window; notes are untouched |
| Lists.KeepWhere | src/lib/guest-notes.ts:98 | `filter` keeps exactly the accepted elements and never lengthens the list |
| Lists.KeepWhereCounts | src/lib/guest-notes.ts:127 | `filter` keeps each accepted element as often as it occurs and drops every rejected one |
| Lists.KeepWhereAppend | src/components/tag-input.tsx:29 | `filter` distributes over concatenation, so relative order is kept |
| MigrateRoute.OrEmpty | src/app/api/notes/migrate/route.ts:27-28 | a falsy title or content defaults to the empty string; a present one is kept |
| MigrateRoute.Post | src/app/api/notes/migrate/route.ts:6-34 | no session gives 401; malformed JSON throws; a `notes` value that is not a non-empty array gives 400; otherwise 201 with one row per item among the first 100, in order, owned by the session user, with title and content defaulted. Rows are created only with that 201, between 1 and 100 of them |
| GuestMigration.Encode | src/lib/migrate-guest-notes.ts:11 | the posted body is an array with one item per guest note carrying its title and content |
| GuestMigration.MigrateGuestNotes | src/lib/migrate-guest-notes.ts:3-19 | an empty store sends nothing and is left alone; otherwise the whole list is posted, the store is cleared if and only if the response is ok, and a failure leaves it unchanged; notebooks are untouched |
| GuestMigration.ServerInsertsPrefix | src/app/api/notes/migrate/route.ts:20-29 | for the body the client posts, the route inserts the first min(n, 100) notes in order with their title and content |
| GuestMigration.ResponseFor | src/lib/migrate-guest-notes.ts:13 | the client sees `ok` exactly for a 2xx status; a thrown handler is a 500 |
| GuestMigration.MigrationLosesOverflow | src/lib/migrate-guest-notes.ts:8-15 | as written, with more than 100 guest notes, 100 rows are inserted and the store ends empty, so notes are lost |
| GuestMigration.MigrateGuestNotesCapped | src/lib/migrate-guest-notes.ts:3-19 | corrected client: posts at most the first 100 notes and, on an ok response, keeps the notes not posted |
| GuestMigration.CappedMigrationKeepsOverflow | src/lib/migrate-guest-notes.ts:8-15 | with the corrected client answered by the route's own response, the first 100 notes are inserted as rows of the user and the rest are still in the guest store, so every note is in one place or the other |
| Ascii.ToLower | src/components/tag-input.tsx:21 | `toLowerCase` keeps the length, maps each character on its own and leaves no upper-case ASCII letter |
| TagInput.Normalize | src/components/tag-input.tsx:21 | the normalized tag is empty exactly when the raw text is blank |
| TagInput.NormalizeIsNormalized | src/components/tag-input.tsx:21 | a normalized tag has no white space at either end and no upper-case letter |
| TagInput.NormalizedIsFixed | src/components/tag-input.tsx:21 | normalizing a stored tag gives it back, so normalizing twice is normalizing once |
| TagInput.WithTag | src/components/tag-input.tsx:20-24 | a new list is emitted exactly when the normalized text is non-empty and absent; it is the old list, in order, with the tag appended |
| TagInput.WithTagKeepsDistinct | src/components/tag-input.tsx:22-23 | adding to a duplicate-free list keeps it duplicate-free |
| TagInput.WithTagKeepsNormalized | src/components/tag-input.tsx:21-23 | adding to a list of normalized tags keeps every tag normalized |
| TagInput.WithoutTag | src/components/tag-input.tsx:28-30 | every occurrence of the tag is removed and every other tag keeps its multiplicity |
| TagInput.WithoutAbsentTag | src/components/tag-input.tsx:28-30 | removing a tag that is not there gives the same list |
| TagInput.WithoutLastTag | src/components/tag-input.tsx:37-38 | removing the last tag of a duplicate-free list drops exactly that tag |
| TagInput.TagField.SetInput | src/components/tag-input.tsx:62 | the field holds the typed text |
| TagInput.TagField.AddTag | src/components/tag-input.tsx:20-26 | emits `WithTag` and always clears the field |
| TagInput.TagField.HandleKeyDown | src/components/tag-input.tsx:32-40 | Enter or comma with non-blank text adds the tag, cancels the key and clears the field; Backspace on an empty field with tags removes the last tag; any other key changes nothing |
| TagInput.EnterThenBackspace | src/components/tag-input.tsx:32-40 | typing a new tag and pressing Enter appends it; Backspace then restores the original list |
| NoteCard.RemoveTags | src/components/note-card.tsx:44 | the result is no longer than the input, contains only its characters, and has no `<` followed later by a `>` |
| NoteCard.RemoveTagsIdentity | src/components/note-card.tsx:44 | text without a tag span comes back unchanged |
| NoteCard.RemoveTagsKeepsPlainPrefix | src/components/note-card.tsx:44 | text before the first `<` is kept as it is, in front of what the rest becomes |
| NoteCard.RemoveTagsDropsTag | src/components/note-card.tsx:44 | a `<`, the text up to the next `>` and that `>` are removed and everything before them kept; with `RemoveTagsIdentity` this determines the result on every input |
| NoteCard.TrimKeepsNoTagSpan | src/components/note-card.tsx:44 | trimming text without a tag span leaves it without one |
| NoteCard.StripHtml | src/components/note-card.tsx:43-45 | the preview has no tag span and no white space at either end |
| NoteCard.StripHtmlIdempotent | src/components/note-card.tsx:43-45 | stripping twice equals stripping once |
| NoteCard.OrElse | src/components/note-card.tsx:68 | JavaScript's logical or on strings: the fallback exactly for empty text, the text itself otherwise; the result is non-empty when either is. The card uses it for the title ("Untitled"), the preview ("No content") and the tooltip ("Empty note") |
| NoteCard.ShownTags | src/components/note-card.tsx:81 | the tag buttons are the first min(n, 3) tags |
| NoteCard.Overflow | src/components/note-card.tsx:94-98 | a "+" label appears if and only if there are more than 3 tags |
| NoteCard.Tooltip | src/components/note-card.tsx:118 | an empty preview gives "Empty note"; otherwise a non-empty prefix of the preview of at most 200 characters, the whole preview when it fits |
| NoteCard.ViewOf | src/components/note-card.tsx:57-118 | a card never shows an empty title, preview or tooltip, shows at most 3 tags and 200 tooltip characters, and has an overflow label exactly when tags are hidden |
| NoteCard.OverflowCountsHiddenTags | src/components/note-card.tsx:81-98 | every tag is either shown or counted: the digits after "+" read back as the number of hidden tags |
| NotebookShelf.NoteCounts | src/components/notebook-shelf.tsx:40-48 | an id has an entry exactly when a note is filed under it, the entry is that number of notes, and the entries sum to the number of filed notes |
| NotebookShelf.CountAtMostFiled | src/components/notebook-shelf.tsx:42-46 | no notebook counts more notes than are filed at all |
| NotebookShelf.BookWidth | src/components/notebook-shelf.tsx:51-55 | 72 exactly for 10 or more notes, 56 exactly for fewer than 5, 64 otherwise |
| NotebookShelf.BookWidthMonotone | src/components/notebook-shelf.tsx:51-55 | more notes never give a thinner book |
| NotebookShelf.CoverAt | src/components/notebook-shelf.tsx:150 | the first six positions get the six covers in table order, and every position gets one of them |
| NotebookShelf.HeightAt | src/components/notebook-shelf.tsx:151 | the first eight positions get the eight heights in table order, and every position gets one of them, between 134 and 158 |
| NotebookShelf.CyclesArePeriodic | src/components/notebook-shelf.tsx:150-151 | covers repeat every 6 books and heights every 8, so with the table-order start the whole cycle is fixed |
| NotebookShelf.SelectOnClick | src/components/notebook-shelf.tsx:153-159 | clicking the active notebook selects nothing; clicking any other selects it |
| NotebookShelf.ClickTwice | src/components/notebook-shelf.tsx:159 | two clicks on one book leave it selected if it was active, and nothing selected otherwise |
| NotebookShelf.NoteNoun | src/components/notebook-shelf.tsx:173 | "note" exactly for a count of 1, "notes" for every other count |
| NotebookShelf.SpineTitle | src/components/notebook-shelf.tsx:173 | the tooltip starts with the notebook name |
| NotebookShelf.SpineTitleCount | src/components/notebook-shelf.tsx:173 | the digits in the tooltip read back as the count |
| NotebookShelf.DisplayCount | src/components/notebook-shelf.tsx:152 | the counted value for a counted notebook, 0 for one without notes |
| NotebookShelf.BookAt | src/components/notebook-shelf.tsx:149-173 | the book for one notebook carries its id and displayed count, one of the three widths, a click that deselects exactly when it is active and selects it otherwise, and a tooltip starting with its name |
| NotebookShelf.RenderShelf | src/components/notebook-shelf.tsx:57-173 | no notebooks give the empty-library prompt; otherwise one book per notebook in order, with its note count (0 when missing), width, cyclic cover and height, active flag, click target and tooltip |
| RegisterForm.CriteriaMet | src/components/register-form.tsx:23-28 | at most 5 criteria, and at most 3 for a password shorter than 8 |
| RegisterForm.Grade | src/components/register-form.tsx:30-32 | a count of at most 1 is exactly Weak, 2 or 3 exactly Fair, 4 or more exactly Strong |
| RegisterForm.GradeMonotone | src/components/register-form.tsx:30-32 | more criteria never give a lower grade |
| RegisterForm.GetPasswordStrength | src/components/register-form.tsx:21-33 | an empty password gives score 0 and no label; otherwise the grade of the criteria count, a score from 1 to 3, never Strong below 8 characters |
| RegisterForm.CriteriaMonotone | src/components/register-form.tsx:24-28 | appending characters never loses a criterion |
| RegisterForm.StrengthMonotone | src/components/register-form.tsx:24-32 | appending characters never lowers the meter |
| UserMenu.Split | src/components/user-menu.tsx:25 | at least one piece, and no piece contains the separator |
| UserMenu.SplitJoin | src/components/user-menu.tsx:25 | joining the pieces of a split with the separator gives the string back |
| UserMenu.FirstChars | src/components/user-menu.tsx:26-27 | at most one character per word; empty words contribute nothing |
| UserMenu.WordStarts | src/components/user-menu.tsx:24-27 | reference definition of the initials: the characters that start a word; never a space |
| UserMenu.FirstCharsAreWordStarts | src/components/user-menu.tsx:25-27 | the first characters of the split words are exactly the word starts |
| Ascii.ToUpper | src/components/user-menu.tsx:28 | `toUpperCase` keeps the length, maps each character on its own and leaves no lower-case ASCII letter |
| UserMenu.Initials | src/components/user-menu.tsx:23-30 | a missing or empty name gives "?"; otherwise the first two upper-cased word starts; never more than 2 characters |
| UserMenu.SpacesOnly | src/components/user-menu.tsx:25-27 | a name made only of spaces has no word starts, so its initials are empty |
| UserMenu.InsideWord | src/components/user-menu.tsx:25-27 | the characters after the first one of a word contribute nothing |
| UserMenu.TwoWords | src/components/user-menu.tsx:23-30 | two words give their two upper-cased first letters |
| Themes.Lookup | src/lib/themes.ts:17-73 | a definition exists exactly for the five theme ids, and it carries its own id |
| Themes.FiveDistinctIds | src/lib/themes.ts:1 | there are five theme ids and no two are equal |
| Themes.DefaultIsATheme | src/lib/themes.ts:3 | the default theme is one of the ids and has a definition |
| Themes.TableMatchesIds | src/lib/themes.ts:17-73 | the table has one entry per id and each entry carries its own id |
| Ascii.Trim | src/components/tag-input.tsx:21 | `trim` is the contiguous slice after the leading white space, and everything after it is white space; it is empty exactly for blank text and has no white space at either end |
| Ascii.TrimIdempotent | src/components/note-card.tsx:44 | trimming twice equals trimming once |
| Ascii.Decimal | src/components/note-card.tsx:96 | `String(n)` is a non-empty run of digits without a leading zero |
| Ascii.DecimalRoundTrip | src/components/notebook-shelf.tsx:173 | the rendered digits read back as the number |

## Left out

- Time: the 1500 ms debounce and the 2000 ms saved display are pending slots. The order of method calls is the order of events.
- React scheduling: effect ordering is fixed as the code declares it, and renders without a change are not events.
- Network, database and session: these are abstract outcomes. `fetch` either rejects or responds with an ok flag and, for a create, a body that parses to a note or does not. The session is present or absent. The rows the database returns, and its generated columns, are replaced by the rows the route asks it to insert. A database error is not modelled.
- `crypto.randomUUID()`, `new Date().toISOString()` and a `localStorage.setItem` that throws are parameters: `newId`, `now` and `quotaExceeded`.
- `JSON.parse` and `JSON.stringify` are not modelled as text. A storage slot is missing, unparsable, or a parsed list.
- GuestNotes.GuestStorage.GetGuestNotebooks: a stored JSON value that is not a list (`null`, an object, a number or a string) is returned as is by `raw ? JSON.parse(raw) : []` (`src/lib/guest-notes.ts:107`). Such values are not modelled; a slot holds a list, nothing, or text that does not parse.
- Autosave.AutosaveEngine.Change: assumes the caller passes `onNoteCreated` and `onNotesChanged` with stable identities, and that `isGuest` does not change while the engine lives (it is the constant field `isGuest`). `performSave` depends on all three (`src/hooks/use-autosave.ts:133`), and the debounce effect depends on `performSave` (`:150`). With inline callbacks, every render caused by `setStatus` (`:78`, `:120`, `:125`) would schedule a fresh debounce with the current draft. The model does not capture those extra debounces. Among other effects, the draft that `InFlightDropsSecondAttempt` leaves unsent would then be sent after the first save.
- Autosave.AutosaveEngine.CompleteSave: assumes `onNoteCreated` and `onNotesChanged` do not throw. If one threw, the source would show "error" after the write had already happened.
- Autosave.AutosaveEngine.FireDebounce: the guest path makes the same assumption about `onNoteCreated` (`src/hooks/use-autosave.ts:96`) and `onNotesChanged` (`:119`). A throw there would show "error" after the store was written, and the baseline would not advance.
- MigrateRoute.Post: an array item that is `null` or `undefined` makes `n.title` throw. That case is not modelled. Any other item is covered: a number, string or boolean item reads `title` and `content` as undefined and becomes `GuestItem(None, None)`, a row with empty title and content.
- Ascii.ToLower / Ascii.ToUpper: map only the ASCII letters, because JavaScript's full Unicode case mapping is not modelled. `trim` uses the complete white-space set of the ECMAScript standard.
- String lengths and `n[0]` count characters rather than UTF-16 code units, so the password length, the initials and the 200-unit cut of `NoteCard.Tooltip` (`slice(0, 200)`, `src/components/note-card.tsx:118`) differ from the source for characters outside the Basic Multilingual Plane.
- Themes.Lookup: `themes[id]` for an inherited property name such as "toString" yields a value from `Object.prototype`, not `undefined`. Theme ids come from the fixed list, so such ids are not modelled and `Lookup` answers `None`.
- NotebookShelf.NoteCounts: a notebook id that names a property of `Object.prototype`, such as "constructor", would make the source's `counts[id] || 0` read an inherited value. Notebook ids are UUIDs; such ids are not modelled.
- TagInput.TagField.HandleKeyDown: does not model the browser typing a comma into the field when the key's default is not cancelled. That text reaches the model through `SetInput`.
- Rendering: class names other than the cover table, the animation delay of note cards, relative dates (`formatDistanceToNow`), the shelf's scroll arrows and resize observer, and the context menus.

## Findings

| source | as written | input that shows it | evidently intended | confidence | as-written member | corrected member |
|---|---|---|---|---|---|---|
| src/lib/migrate-guest-notes.ts:8-15 | the client posts every guest note and clears the whole guest store on an ok response, while the route inserts only the first 100 (src/app/api/notes/migrate/route.ts:20) and still answers 201 | a guest with 101 or more notes signs up: notes 101 onwards are neither inserted nor kept | submit at most 100 notes and clear only what was submitted, so no note is lost | high; not executed | GuestMigration.MigrationLosesOverflow | GuestMigration.CappedMigrationKeepsOverflow |
| src/hooks/use-autosave.ts:52-60 | when the note id changes, the reset makes the current draft the baseline, including when the new id is the one the engine's own POST just reported | on a new note, type `s`; the POST of `s` goes out; type `s2` before it returns; the caller renders with the created id and `s2`: the next debounce finds `s2` equal to the baseline and sends nothing | keep the baseline at the draft actually sent when the id is adopted from a create, so `s2` is sent as a PATCH | medium: the caller that adopts the id is not part of this model; not executed | AutosaveScenarios.AdoptionLosesEdit | AutosaveScenarios.AdoptionSavesEdit |
| src/hooks/use-autosave.ts:64 | a debounce that fires while a save is in flight returns early and is not rescheduled | on a note with an id, type `s`; its PATCH goes out; type `s2` and let the debounce fire before the PATCH returns: once it returns nothing is pending, and `s2` stays unsaved until the user edits again | keep the dropped draft pending until the save in flight has settled, then save it | medium: assumes callbacks of stable identity (see "Left out"); not executed | AutosaveScenarios.InFlightDropsSecondAttempt | AutosaveScenarios.InFlightEditSentAfterCompletion |
