/**
 * One sticky-note card: the requests it sends its parent when the user drags,
 * clicks, ticks, deletes or edits it, and the state of its inline editor.
 */
module StickyNoteCard {
  import opened Wrappers
  import opened Notes
  import opened JsString

  /** A call the card makes on its parent: `onUpdate(id, updates)`,
      `onDelete(id)` or `onBringToTop(id)`. */
  datatype Command =
    | Update(id: string, changes: NoteUpdate)
    | Delete(id: string)
    | BringToTop(id: string)

  /** A gesture on the card outside the editor. */
  datatype Gesture =
    | DragStart                         // drag begins on the card
    | Drag(clientX: int, clientY: int)  // one pointer sample during a drag
    | Click                             // click on the card itself
    | CompletionClick                   // the completion check box
    | TrashClick                        // the delete button

  /** Top-left corner of the page's bounding rectangle, the frame drag
      positions are measured in. */
  datatype Origin = Origin(left: int, top: int)

  /** `note.dueDate || ''`: what the date editor starts from. */
  function DueDraft(dueDate: Option<string>): (d: string)
    ensures d == "" <==> dueDate.None? || dueDate == Some("")
    ensures dueDate.Some? ==> d == dueDate.value
  {
    if dueDate.Some? then dueDate.value else ""
  }

  /** `editText.trim() || 'Untitled'`: never empty and free of outer
      whitespace. */
  function SavedText(editText: string): (t: string)
    ensures t != [] && IsTrimmed(t)
    ensures AllWhitespace(editText) ==> t == "Untitled"
    ensures !AllWhitespace(editText) ==> t == Trim(editText)
  {
    var trimmed := Trim(editText);
    if trimmed == "" then "Untitled" else trimmed
  }

  /** `editDue || undefined`: an empty date means no date, never `''`. */
  function SavedDue(editDue: string): (d: Option<string>)
    ensures d != Some("")
    ensures d.None? <==> editDue == ""
    ensures d.Some? ==> d.value == editDue
  {
    if editDue == "" then None else Some(editDue)
  }

  /** The update `saveEdit` sends: the text and the due date, nothing else. */
  function SaveEditChanges(editText: string, editDue: string): (u: NoteUpdate)
    ensures Named(u) == {Text, DueDate}
    ensures u.text.Some? && u.text.value != [] && IsTrimmed(u.text.value)
    ensures u.dueDate.Some? && u.dueDate.value != Some("")
    ensures u.text == Some(SavedText(editText)) && u.dueDate == Some(SavedDue(editDue))
  {
    NoChanges.(text := Some(SavedText(editText)), dueDate := Some(SavedDue(editDue)))
  }

  /** The update `handleDrag` sends for one pointer sample: none for the
      (0, 0) sample a drag ends with, otherwise the pointer position relative
      to the origin, as `x` and `y` and nothing else. */
  function DragChanges(clientX: int, clientY: int, origin: Origin): (u: Option<NoteUpdate>)
    ensures u.None? <==> clientX == 0 && clientY == 0
    ensures u.Some? ==> Named(u.value) == {X, Y}
    ensures u.Some? ==> u.value.x == Some(clientX - origin.left) && u.value.y == Some(clientY - origin.top)
  {
    if clientX == 0 && clientY == 0 then None
    else Some(NoChanges.(x := Some(clientX - origin.left), y := Some(clientY - origin.top)))
  }

  /** What the card asks of its parent for a gesture: raising on drag start
      and on click, moving on a drag sample, flipping completion, deleting.
      Every request names the card's own note. */
  function Handle(note: Note, g: Gesture, origin: Origin): (cmd: Option<Command>)
    ensures cmd.Some? ==> cmd.value.id == note.id
    ensures g.DragStart? || g.Click? ==> cmd == Some(BringToTop(note.id))
    ensures g.Drag? ==> (cmd.None? <==> g.clientX == 0 && g.clientY == 0)
    ensures g.Drag? && cmd.Some? ==>
              cmd.value.Update? && Named(cmd.value.changes) == {X, Y}
              && cmd.value.changes.x == Some(g.clientX - origin.left)
              && cmd.value.changes.y == Some(g.clientY - origin.top)
    ensures g.CompletionClick? ==>
              cmd.Some? && cmd.value.Update? && Named(cmd.value.changes) == {Completed}
              && cmd.value.changes.completed == Some(!note.completed)
    ensures g.TrashClick? ==> cmd == Some(Delete(note.id))
  {
    match g
    case DragStart => Some(BringToTop(note.id))
    case Drag(cx, cy) =>
      var u := DragChanges(cx, cy, origin);
      if u.Some? then Some(Update(note.id, u.value)) else None
    case Click => Some(BringToTop(note.id))
    case CompletionClick => Some(Update(note.id, NoChanges.(completed := Some(!note.completed))))
    case TrashClick => Some(Delete(note.id))
  }

  /** `note.text || 'Untitled'`: the text shown on the card, never empty. */
  function DisplayText(note: Note): (t: string)
    ensures t != []
    ensures note.text != [] ==> t == note.text
    ensures note.text == [] ==> t == "Untitled"
  {
    if note.text == "" then "Untitled" else note.text
  }

  /** Saving the editor as it was opened reproduces the note, provided its
      text is already non-empty and trimmed and its date is not `''`. */
  lemma SaveUnchangedKeepsNote(note: Note)
    requires note.text != [] && IsTrimmed(note.text) && note.dueDate != Some("")
    ensures Merge(note, SaveEditChanges(note.text, DueDraft(note.dueDate))) == note
  {
    TrimOfTrimmed(note.text);
  }

  /** The card's inline editor: whether it is open and the draft text and
      date it holds. */
  class NoteEditor {
    var isEditing: bool
    var editText: string
    var editDue: string

    /** The editor starts closed, with the note's text and its due date or
        `''`. */
    constructor (note: Note)
      ensures !isEditing && editText == note.text && editDue == DueDraft(note.dueDate)
    {
      isEditing := false;
      editText := note.text;
      editDue := DueDraft(note.dueDate);
    }

    /** Double-click on the text or the Edit button opens the editor. */
    method Open()
      modifies this
      ensures isEditing && editText == old(editText) && editDue == old(editDue)
    {
      isEditing := true;
    }

    /** Typing in the text area. */
    method SetText(text: string)
      modifies this
      ensures editText == text && isEditing == old(isEditing) && editDue == old(editDue)
    {
      editText := text;
    }

    /** Picking a date. */
    method SetDue(due: string)
      modifies this
      ensures editDue == due && isEditing == old(isEditing) && editText == old(editText)
    {
      editDue := due;
    }

    /** Cancel closes the editor and sends nothing; the drafts stay. */
    method Cancel()
      modifies this
      ensures !isEditing && editText == old(editText) && editDue == old(editDue)
    {
      isEditing := false;
    }

    /** `saveEdit`: sends the normalised text and date for the note and
        closes the editor; the drafts stay as typed. */
    method SaveEdit(note: Note) returns (cmd: Command)
      modifies this
      ensures cmd == Update(note.id, SaveEditChanges(old(editText), old(editDue)))
      ensures !isEditing && editText == old(editText) && editDue == old(editDue)
    {
      cmd := Update(note.id, SaveEditChanges(editText, editDue));
      isEditing := false;
    }
  }
}
