# Sticky-notes board: the notes store and its input normalisation

This project models the data logic of a React sticky-notes board. The
application root owns one ordered collection of notes. Each note has an id,
a text, an optional due date, a completion flag, an `x`/`y` position, a
stacking index `z` and a colour from a five-entry palette. The root offers
four operations on the collection:

- `addNote` appends a blank note stacked above every existing note.
- `updateNote` merges a partial record into the note with a given id.
- `deleteNote` filters that id out.
- `bringToTop` raises one note above all others.

Each card turns user gestures into calls on these operations. A drag start
or a click raises the note. A drag sample moves it. The check box flips
completion. The trash button deletes it. The inline editor saves a trimmed
text, which falls back to `Untitled` when empty, and a due date, which is
absent when empty. The task entry form submits its trimmed input only when
that input is not empty, and then clears the field.

Modules, one per source file or concept:

- `Wrappers`: `Option`, standing for a JavaScript value that may be `undefined`.
- `JsString`: `String.prototype.trim`, with the ECMAScript whitespace set written out.
- `Notes`: the note record (`src/types.ts`), the partial update `Partial<StickyNote>` and the spread merge `{ ...note, ...updates }`.
- `NoteList`: the replacement arrays the four operations compute, as pure functions, with their properties.
- `App`: the `NotesStore` class, whose methods replace its `notes` field. It also shows how the card's requests reach the store, and what each gesture does to the collection.
- `StickyNoteCard`: what the card sends for each gesture and on save, plus its editor state as the `NoteEditor` class.
- `TaskInput`: the submit decision, the disabled-button condition and the `TaskForm` class holding the input field.

Callbacks handed down as props (`onUpdate`, `onDelete`, `onBringToTop`,
`onAddTask`) are modelled as values the component returns: a `Command`, or
the `Option<string>` submitted. The store then applies those values.

## Model

| member | source | states |
|---|---|---|
| `JsString.Trim` | src/components/TaskInput.tsx:14 | the result has no leading or trailing whitespace; it is empty exactly when the input is whitespace only; the input is the result framed by a whitespace prefix and a whitespace suffix |
| `JsString.TrimStrips` | src/components/TaskInput.tsx:14 | any trimmed string framed by whitespace on both sides trims back to itself (a characterisation of `trim` independent of its definition) |
| `JsString.TrimOfTrimmed` | src/components/StickyNoteCard.tsx:63 | a string with no outer whitespace is unchanged by `trim` |
| `JsString.TrimIdempotent` | src/components/TaskInput.tsx:14 | trimming twice equals trimming once |
| `Notes.Named` | src/App.tsx:42 | a field is in the named set exactly when the `Partial<StickyNote>` update sets it |
| `Notes.Merge` | src/App.tsx:44 | the merged note holds every field the update names and keeps every field it does not name |
| `Notes.MergeUnique` | src/App.tsx:44 | the merge is the only note that carries the update and keeps the other fields |
| `Notes.MergeIdempotent` | src/App.tsx:44 | merging the same update again changes nothing |
| `NoteList.MaxZ` | src/App.tsx:36 | `Math.max(...z, 0)`: non-negative, at least every note's `z`, and either 0 or the `z` of some note |
| `NoteList.NewNote` | src/App.tsx:29-38 | the new note has the given id, empty text, no due date, `completed = false`, the given position, the palette colour at the drawn index, and `z = max(0, all z) + 1`, so `z >= 1` strictly above every existing note's `z` |
| `NoteList.AddNote` | src/App.tsx:28-40 | exactly one note is appended at the end; the existing notes keep their values and order |
| `NoteList.UpdateNote` | src/App.tsx:42-46 | length and order are preserved; notes with another id are unchanged; each note with the id carries the update and keeps its other fields |
| `NoteList.Raise` | src/App.tsx:55 | the raise update names only `z` |
| `NoteList.BringToTop` | src/App.tsx:52-57 | every note with the id gets `z = max(0, all z) + 1`, which is above every old `z` and above every other note's new `z`; no other note and no other field changes |
| `NoteList.DeleteNote` | src/App.tsx:48-50 | the result holds exactly the notes with a different id, one fewer per removed occurrence, and is a subsequence of the input, so order is kept |
| `NoteList.Count` | src/App.tsx:49 | the multiplicity of the id among the notes' ids (the number of notes `filter` drops); zero exactly when the id is absent |
| `NoteList.UpdateNoteAbsent` | src/App.tsx:44 | updating an absent id is a no-op |
| `NoteList.UpdateNoteIdempotent` | src/App.tsx:42-46 | applying the same update twice equals applying it once |
| `NoteList.UpdateNoteKeepsIds` | src/App.tsx:44 | an update that does not name `id` keeps every note's id, so distinct ids stay distinct |
| `NoteList.BringToTopTwice` | src/App.tsx:52-56 | raising `a` and then `b` (with `a != b`) leaves every `b` note above every `a` note |
| `NoteList.BringToTopAbsent` | src/App.tsx:55 | raising an absent id is a no-op |
| `NoteList.BringToTopKeepsUniqueIds` | src/App.tsx:55 | raising keeps ids distinct |
| `NoteList.AddNoteKeepsUniqueIds` | src/App.tsx:30 | adding a note under a fresh id keeps ids distinct |
| `NoteList.DeleteNoteAbsent` | src/App.tsx:49 | deleting an absent id is a no-op |
| `NoteList.DeleteNoteAppend` | src/App.tsx:49 | deleting from a concatenation concatenates the survivors of each part, in order |
| `NoteList.DeleteAfterAdd` | src/App.tsx:28-50 | deleting the note just added under a fresh id restores the collection |
| `NoteList.CountUnique` | src/App.tsx:49 | with distinct ids an id occurs at most once |
| `NoteList.DeleteNoteRemovesOne` | src/App.tsx:49 | with distinct ids, deleting a present id removes exactly one note |
| `NoteList.DeleteNoteKeepsUniqueIds` | src/App.tsx:49 | deleting keeps ids distinct |
| `NoteList.DeleteNoteIdempotent` | src/App.tsx:49 | deleting twice equals deleting once |
| `NoteList.AddNoteKeepsPalette` | src/App.tsx:8-37 | when every note's colour is in the palette, so is every colour after adding a note |
| `NoteList.UpdateNoteKeepsPalette` | src/App.tsx:42-46 | an update that names no colour, or a palette colour, keeps every colour in the palette |
| `NoteList.BringToTopKeepsPalette` | src/App.tsx:52-57 | raising keeps every colour in the palette |
| `NoteList.DeleteNoteKeepsPalette` | src/App.tsx:48-50 | deleting keeps every colour in the palette |
| `App.Restore` | src/App.tsx:11-14 | no saved value gives the empty collection; a saved one is taken as it is |
| `App.NotesStore.constructor` | src/App.tsx:11-14 | the store starts from the restored collection |
| `App.NotesStore.AddNote` | src/App.tsx:28-40 | the collection becomes `NoteList.AddNote` of the old one: one note appended, the old notes kept, the new `z` equal to `max(0, all z) + 1` and so above all old ones |
| `App.NotesStore.UpdateNote` | src/App.tsx:42-46 | the collection becomes `NoteList.UpdateNote` of the old one, and is unchanged for an absent id |
| `App.NotesStore.DeleteNote` | src/App.tsx:48-50 | the collection becomes `NoteList.DeleteNote` of the old one, and is unchanged for an absent id |
| `App.NotesStore.BringToTop` | src/App.tsx:52-57 | the collection becomes `NoteList.BringToTop` of the old one, and is unchanged for an absent id |
| `App.NotesStore.Dispatch` | src/App.tsx:95-97 | a card's update, delete or raise request reaches `updateNote`, `deleteNote` or `bringToTop` |
| `App.RaiseGestures` | src/components/StickyNoteCard.tsx:45-73 | drag start and click put the card's note above every note and change only its `z` |
| `App.DragMovesNote` | src/components/StickyNoteCard.tsx:54-59 | a drag sample away from (0, 0) sets the note's `x`, `y` to pointer minus origin and changes nothing else |
| `App.DragAtZeroIgnored` | src/components/StickyNoteCard.tsx:55 | a (0, 0) drag sample leaves the collection unchanged |
| `App.DragRepeatHarmless` | src/components/StickyNoteCard.tsx:54-59 | handling the same drag sample twice equals handling it once |
| `App.CompletionTwiceRestores` | src/components/StickyNoteCard.tsx:147 | with distinct ids, ticking the completion box twice restores the collection |
| `App.TrashRemovesNote` | src/components/StickyNoteCard.tsx:90 | the trash button leaves no note with the card's id, keeps every note with another id, and keeps the survivors in order |
| `App.SaveStoresNormalisedText` | src/components/StickyNoteCard.tsx:62-65 | after a save, the note's text is non-empty and trimmed and is shown as it is, its due date is never `''`, and no other field and no other note changes |
| `App.GesturesKeepPalette` | src/components/StickyNoteCard.tsx:45-147 | no card gesture moves a colour out of the palette |
| `App.SaveKeepsPalette` | src/components/StickyNoteCard.tsx:62-65 | an editor save moves no colour out of the palette |
| `StickyNoteCard.DueDraft` | src/components/StickyNoteCard.tsx:25 | the date draft is the note's date when it has one and `''` otherwise, so `''` exactly when the date is absent or empty |
| `StickyNoteCard.SavedText` | src/components/StickyNoteCard.tsx:63 | the stored text is never empty and is trimmed: `Untitled` for whitespace-only input, the trimmed input otherwise |
| `StickyNoteCard.SavedDue` | src/components/StickyNoteCard.tsx:63 | the stored date is absent exactly when the draft is empty, never `''`, and otherwise the draft |
| `StickyNoteCard.SaveEditChanges` | src/components/StickyNoteCard.tsx:62-65 | the save update names only `text` and `dueDate`, set to `SavedText(editText)` (non-empty and trimmed) and `SavedDue(editDue)` (never `''`) |
| `StickyNoteCard.DragChanges` | src/components/StickyNoteCard.tsx:54-59 | no update for the (0, 0) sample; otherwise an update naming only `x`, `y`, set to pointer minus origin |
| `StickyNoteCard.Handle` | src/components/StickyNoteCard.tsx:45-147 | every request names the card's note; drag start and click raise it; a drag sample moves it unless at (0, 0); the check box sends only `completed = !note.completed`; the trash button deletes it |
| `StickyNoteCard.DisplayText` | src/components/StickyNoteCard.tsx:133 | the shown text is the note's text when that is non-empty and `Untitled` otherwise, so never empty |
| `StickyNoteCard.SaveUnchangedKeepsNote` | src/components/StickyNoteCard.tsx:24-64 | saving the editor as it was opened reproduces the note when its text is non-empty and trimmed and its date is not `''` |
| `StickyNoteCard.NoteEditor.constructor` | src/components/StickyNoteCard.tsx:23-25 | the editor starts closed with the note's text and its date or `''` |
| `StickyNoteCard.NoteEditor.Open` | src/components/StickyNoteCard.tsx:130 | double-click (and the Edit button, line 156) opens the editor and keeps the drafts |
| `StickyNoteCard.NoteEditor.SetText` | src/components/StickyNoteCard.tsx:102 | typing replaces the text draft only |
| `StickyNoteCard.NoteEditor.SetDue` | src/components/StickyNoteCard.tsx:109 | picking a date replaces the date draft only |
| `StickyNoteCard.NoteEditor.Cancel` | src/components/StickyNoteCard.tsx:120 | cancel closes the editor, sends nothing and keeps the drafts |
| `StickyNoteCard.NoteEditor.SaveEdit` | src/components/StickyNoteCard.tsx:62-65 | save sends the normalised update for the note's id and closes the editor |
| `TaskInput.Submitted` | src/components/TaskInput.tsx:12-20 | nothing is submitted exactly when the input is whitespace only; otherwise the trimmed input, which is non-empty and has no outer whitespace |
| `TaskInput.SubmitDisabled` | src/components/TaskInput.tsx:49 | the button is disabled exactly when the input is whitespace only |
| `TaskInput.DisabledIffRejected` | src/components/TaskInput.tsx:49 | the button is disabled exactly when a submit would add nothing |
| `TaskInput.ResubmitSame` | src/components/TaskInput.tsx:14 | the submitted text, submitted again, is submitted unchanged |
| `TaskInput.TaskForm.constructor` | src/components/TaskInput.tsx:10 | the field starts empty |
| `TaskInput.TaskForm.SetInput` | src/components/TaskInput.tsx:27 | typing replaces the field |
| `TaskInput.TaskForm.HandleSubmit` | src/components/TaskInput.tsx:12-20 | hands `Submitted(input)` to the caller; the field is cleared only after a successful submit and is unchanged otherwise |

## Left out

- Rendering, styling, icons, the dark-mode flag and its toggle, and the focus effect: presentation only.
- Persistence to the browser's storage and the colour-scheme query. `App.Restore` takes the outcome of reading storage as a parameter; JSON parsing is not modelled.
- `crypto.randomUUID` and `Math.random`: the id and the palette index in `[0, 5)` are parameters. Freshness of the id is a hypothesis of the lemmas that need it.
- The centred start position `innerWidth / 2 - 128`, `innerHeight / 2 - 100`: `x` and `y` are parameters.
- Floating point: positions and stacking indices are JavaScript numbers; the model uses unbounded integers, so `NaN`, infinities and rounding are not modelled.
- `getBoundingClientRect` and the pointer offset written to `dataTransfer` on drag start: the page origin is a parameter, and the offset string is never read back.
- The due-date display through `toLocaleDateString`.
- `addNote` and `bringToTop` take the maximum `z` from the `notes` of their render closure (src/App.tsx:36 and :53) but apply the change to the `prev` value of the state setter (src/App.tsx:39 and :55). The model applies operations one after another to the current collection, so several adds or raises batched into one render, which could reuse one stale maximum, are not modelled.
- `Notes.Note`: a colour is any string, because a restored collection may hold any value; that colours stay in the palette is proved as preservation (`NoteList.PaletteColors`) from a restored collection that satisfies it.
- `NoteList.DeleteNote` removes every note with the id. It removes exactly one only when ids are distinct (`NoteList.DeleteNoteRemovesOne`). The code does not enforce distinct ids; the model follows the code.
- The date input of the task form, which shares the text field's value: a UI quirk.
- The task list that consumes `onAddTask`, the `Task` type, the reorder-by-drag engine and `AddNoteButton`: their source is not part of this model.
- `src/components/TaskItem.tsx`: it only forwards index callbacks.
