/**
 * The application root: the `notes` collection it owns, the four operations
 * it hands each card as callbacks, and what a card's requests do to it.
 */
module App {
  import opened Wrappers
  import opened Notes
  import opened JsString
  import NoteList
  import Card = StickyNoteCard

  /** The collection the store starts from: the saved array, or an empty one
      when nothing is saved. Reading and parsing the browser's storage is not
      modelled; `saved` is its outcome. */
  function Restore(saved: Option<seq<Note>>): (notes: seq<Note>)
    ensures saved.None? ==> notes == []
    ensures saved.Some? ==> notes == saved.value
  {
    if saved.Some? then saved.value else []
  }

  /** The callback a card request reaches: `onUpdate` is `updateNote`,
      `onDelete` is `deleteNote`, `onBringToTop` is `bringToTop`. */
  function Apply(notes: seq<Note>, cmd: Card.Command): seq<Note>
  {
    match cmd
    case Update(id, u) => NoteList.UpdateNote(notes, id, u)
    case Delete(id) => NoteList.DeleteNote(notes, id)
    case BringToTop(id) => NoteList.BringToTop(notes, id)
  }

  /** A request the card may or may not have made. */
  function ApplyIfAny(notes: seq<Note>, cmd: Option<Card.Command>): seq<Note>
  {
    if cmd.Some? then Apply(notes, cmd.value) else notes
  }

  /** The notes store: one collection, replaced as a whole by each
      operation. */
  class NotesStore {
    var notes: seq<Note>

    constructor (saved: Option<seq<Note>>)
      ensures notes == Restore(saved)
    {
      notes := Restore(saved);
    }

    /** `addNote`: `id` is the fresh identifier, `colorIndex` the palette
        slot drawn at random, `x`, `y` the centred position. */
    method AddNote(id: string, colorIndex: nat, x: int, y: int)
      requires colorIndex < |Colors|
      modifies this
      ensures notes == NoteList.AddNote(old(notes), id, colorIndex, x, y)
      ensures |notes| == |old(notes)| + 1 && notes[..|old(notes)|] == old(notes)
      ensures forall i :: 0 <= i < |old(notes)| ==> old(notes)[i].z < notes[|old(notes)|].z
      ensures notes[|old(notes)|].z == NoteList.MaxZ(old(notes)) + 1
    {
      notes := NoteList.AddNote(notes, id, colorIndex, x, y);
    }

    /** `updateNote`. */
    method UpdateNote(id: string, u: NoteUpdate)
      modifies this
      ensures notes == NoteList.UpdateNote(old(notes), id, u)
      ensures id !in NoteList.Ids(old(notes)) ==> notes == old(notes)
    {
      if id !in NoteList.Ids(notes) { NoteList.UpdateNoteAbsent(notes, id, u); }
      notes := NoteList.UpdateNote(notes, id, u);
    }

    /** `deleteNote`. */
    method DeleteNote(id: string)
      modifies this
      ensures notes == NoteList.DeleteNote(old(notes), id)
      ensures id !in NoteList.Ids(old(notes)) ==> notes == old(notes)
    {
      if id !in NoteList.Ids(notes) { NoteList.DeleteNoteAbsent(notes, id); }
      notes := NoteList.DeleteNote(notes, id);
    }

    /** `bringToTop`, with the maximum taken over the current collection. */
    method BringToTop(id: string)
      modifies this
      ensures notes == NoteList.BringToTop(old(notes), id)
      ensures id !in NoteList.Ids(old(notes)) ==> notes == old(notes)
    {
      if id !in NoteList.Ids(notes) { NoteList.BringToTopAbsent(notes, id); }
      notes := NoteList.BringToTop(notes, id);
    }

    /** A card's request, through the callback it is wired to. */
    method Dispatch(cmd: Card.Command)
      modifies this
      ensures notes == Apply(old(notes), cmd)
    {
      match cmd
      case Update(id, u) => UpdateNote(id, u);
      case Delete(id) => DeleteNote(id);
      case BringToTop(id) => BringToTop(id);
    }
  }

  // What the card's gestures do to the collection

  /** Drag start and click both put the card's note above every other note,
      changing nothing else. */
  lemma RaiseGestures(notes: seq<Note>, note: Note, g: Card.Gesture, origin: Card.Origin)
    requires g.DragStart? || g.Click?
    ensures var r := ApplyIfAny(notes, Card.Handle(note, g, origin));
            && |r| == |notes|
            && (forall i :: 0 <= i < |notes| && notes[i].id != note.id ==> r[i] == notes[i])
            && (forall i, j :: 0 <= i < |notes| && 0 <= j < |notes| && notes[i].id == note.id ==>
                  notes[j].z < r[i].z && r[i] == notes[i].(z := r[i].z))
  {
  }

  /** A drag sample away from (0, 0) moves the note to the pointer position
      relative to the origin and changes nothing else. */
  lemma DragMovesNote(notes: seq<Note>, note: Note, cx: int, cy: int, origin: Card.Origin)
    requires cx != 0 || cy != 0
    ensures var r := ApplyIfAny(notes, Card.Handle(note, Card.Drag(cx, cy), origin));
            && |r| == |notes|
            && (forall i :: 0 <= i < |notes| && notes[i].id != note.id ==> r[i] == notes[i])
            && (forall i :: 0 <= i < |notes| && notes[i].id == note.id ==>
                  r[i] == notes[i].(x := cx - origin.left, y := cy - origin.top))
  {
    var u := Card.DragChanges(cx, cy, origin).value;
    var r := NoteList.UpdateNote(notes, note.id, u);
    forall i | 0 <= i < |notes| && notes[i].id == note.id
      ensures r[i] == notes[i].(x := cx - origin.left, y := cy - origin.top)
    {
      MergeUnique(notes[i], u, r[i]);
    }
  }

  /** The (0, 0) sample that ends a drag leaves the collection alone. */
  lemma DragAtZeroIgnored(notes: seq<Note>, note: Note, origin: Card.Origin)
    ensures ApplyIfAny(notes, Card.Handle(note, Card.Drag(0, 0), origin)) == notes
  {
  }

  /** Handling the same drag sample twice is handling it once. */
  lemma DragRepeatHarmless(notes: seq<Note>, note: Note, cx: int, cy: int, origin: Card.Origin)
    ensures var cmd := Card.Handle(note, Card.Drag(cx, cy), origin);
            ApplyIfAny(ApplyIfAny(notes, cmd), cmd) == ApplyIfAny(notes, cmd)
  {
    var cmd := Card.Handle(note, Card.Drag(cx, cy), origin);
    if cmd.Some? {
      NoteList.UpdateNoteIdempotent(notes, note.id, cmd.value.changes);
    }
  }

  /** With distinct ids, ticking the completion box twice (the second time
      on the re-rendered note) restores the collection. */
  lemma CompletionTwiceRestores(notes: seq<Note>, k: nat, origin: Card.Origin)
    requires NoteList.UniqueIds(notes) && k < |notes|
    ensures var r1 := ApplyIfAny(notes, Card.Handle(notes[k], Card.CompletionClick, origin));
            |r1| == |notes| &&
            ApplyIfAny(r1, Card.Handle(r1[k], Card.CompletionClick, origin)) == notes
  {
    var n := notes[k];
    var u1 := Card.Handle(n, Card.CompletionClick, origin).value.changes;
    var r1 := NoteList.UpdateNote(notes, n.id, u1);
    MergeUnique(n, u1, r1[k]);
    var u2 := Card.Handle(r1[k], Card.CompletionClick, origin).value.changes;
    var r2 := NoteList.UpdateNote(r1, n.id, u2);
    forall i | 0 <= i < |notes| ensures r2[i] == notes[i] {
      if i == k {
        MergeUnique(r1[k], u2, r2[k]);
      } else {
        assert notes[i].id != n.id;
      }
    }
  }

  /** The trash button removes the card's note and keeps the others in
      order. */
  lemma TrashRemovesNote(notes: seq<Note>, note: Note, origin: Card.Origin)
    ensures var r := ApplyIfAny(notes, Card.Handle(note, Card.TrashClick, origin));
            && note.id !in NoteList.Ids(r)
            && (forall n :: n in notes && n.id != note.id ==> n in r)
            && NoteList.IsSubsequence(r, notes)
  {
  }

  /** Saving the editor stores a non-empty trimmed text, which the card
      then shows as it is, and a due date that is never `''`; the other
      fields of the note and the other notes do not change. */
  lemma SaveStoresNormalisedText(notes: seq<Note>, note: Note, editText: string, editDue: string)
    ensures var r := Apply(notes, Card.Update(note.id, Card.SaveEditChanges(editText, editDue)));
            && |r| == |notes|
            && (forall i :: 0 <= i < |notes| && notes[i].id != note.id ==> r[i] == notes[i])
            && (forall i :: 0 <= i < |notes| && notes[i].id == note.id ==>
                  && r[i] == notes[i].(text := r[i].text, dueDate := r[i].dueDate)
                  && r[i].text != [] && IsTrimmed(r[i].text)
                  && Card.DisplayText(r[i]) == r[i].text
                  && r[i].dueDate != Some(""))
  {
  }

  /** No gesture on a card gives a note a colour outside the palette. */
  lemma GesturesKeepPalette(notes: seq<Note>, note: Note, g: Card.Gesture, origin: Card.Origin)
    requires NoteList.PaletteColors(notes)
    ensures NoteList.PaletteColors(ApplyIfAny(notes, Card.Handle(note, g, origin)))
  {
    match g
    case DragStart => NoteList.BringToTopKeepsPalette(notes, note.id);
    case Click => NoteList.BringToTopKeepsPalette(notes, note.id);
    case TrashClick => NoteList.DeleteNoteKeepsPalette(notes, note.id);
    case Drag(cx, cy) =>
      var cmd := Card.Handle(note, g, origin);
      if cmd.Some? {
        NoteList.UpdateNoteKeepsPalette(notes, note.id, cmd.value.changes);
      }
    case CompletionClick =>
      var cmd := Card.Handle(note, g, origin);
      NoteList.UpdateNoteKeepsPalette(notes, note.id, cmd.value.changes);
  }

  /** Saving the editor gives no note a colour outside the palette. */
  lemma SaveKeepsPalette(notes: seq<Note>, note: Note, editText: string, editDue: string)
    requires NoteList.PaletteColors(notes)
    ensures NoteList.PaletteColors(Apply(notes, Card.Update(note.id, Card.SaveEditChanges(editText, editDue))))
  {
    NoteList.UpdateNoteKeepsPalette(notes, note.id, Card.SaveEditChanges(editText, editDue));
  }
}
