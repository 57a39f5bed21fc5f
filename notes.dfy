/**
 * The sticky-note record and the partial-record merge `{ ...note, ...updates }`
 * that every store update goes through.
 */
module Notes {
  import opened Wrappers

  /** The five colour names a new note can be given, in palette order. */
  const Colors: seq<string> := ["yellow", "pink", "green", "blue", "purple"]

  /** A sticky note. `dueDate` is absent (`undefined`) or a date string;
      `x`, `y` are the pixel position and `z` the stacking index. */
  datatype Note = Note(
    id: string,
    text: string,
    dueDate: Option<string>,
    completed: bool,
    x: int,
    y: int,
    z: int,
    color: string)

  /** `Partial<StickyNote>`: each field is either not named (`None`) or named
      with its new value. A named `dueDate` may carry the absent value, as
      `{ dueDate: undefined }` does. */
  datatype NoteUpdate = NoteUpdate(
    id: Option<string>,
    text: Option<string>,
    dueDate: Option<Option<string>>,
    completed: Option<bool>,
    x: Option<int>,
    y: Option<int>,
    z: Option<int>,
    color: Option<string>)

  /** The update that names no field: `{}`. */
  const NoChanges := NoteUpdate(None, None, None, None, None, None, None, None)

  datatype Field = Id | Text | DueDate | Completed | X | Y | Z | Color

  /** Every field of a note. */
  const AllFields: set<Field> := {Id, Text, DueDate, Completed, X, Y, Z, Color}

  /** Whether the update names the field. */
  predicate Names(u: NoteUpdate, f: Field)
  {
    match f
    case Id => u.id.Some?
    case Text => u.text.Some?
    case DueDate => u.dueDate.Some?
    case Completed => u.completed.Some?
    case X => u.x.Some?
    case Y => u.y.Some?
    case Z => u.z.Some?
    case Color => u.color.Some?
  }

  /** The fields an update names. */
  function Named(u: NoteUpdate): (fs: set<Field>)
    ensures (Id in fs <==> u.id.Some?) && (Text in fs <==> u.text.Some?)
    ensures (DueDate in fs <==> u.dueDate.Some?) && (Completed in fs <==> u.completed.Some?)
    ensures (X in fs <==> u.x.Some?) && (Y in fs <==> u.y.Some?)
    ensures (Z in fs <==> u.z.Some?) && (Color in fs <==> u.color.Some?)
  {
    set f | f in AllFields && Names(u, f)
  }

  /** `a` and `b` agree on every field outside `fs`. */
  predicate SameOutside(a: Note, b: Note, fs: set<Field>)
  {
    && (Id !in fs ==> a.id == b.id)
    && (Text !in fs ==> a.text == b.text)
    && (DueDate !in fs ==> a.dueDate == b.dueDate)
    && (Completed !in fs ==> a.completed == b.completed)
    && (X !in fs ==> a.x == b.x)
    && (Y !in fs ==> a.y == b.y)
    && (Z !in fs ==> a.z == b.z)
    && (Color !in fs ==> a.color == b.color)
  }

  /** `n` holds the value of every field that `u` names. */
  predicate Carries(n: Note, u: NoteUpdate)
  {
    && (u.id.Some? ==> n.id == u.id.value)
    && (u.text.Some? ==> n.text == u.text.value)
    && (u.dueDate.Some? ==> n.dueDate == u.dueDate.value)
    && (u.completed.Some? ==> n.completed == u.completed.value)
    && (u.x.Some? ==> n.x == u.x.value)
    && (u.y.Some? ==> n.y == u.y.value)
    && (u.z.Some? ==> n.z == u.z.value)
    && (u.color.Some? ==> n.color == u.color.value)
  }

  function Pick<T>(o: Option<T>, keep: T): T
  {
    if o.Some? then o.value else keep
  }

  /** `{ ...n, ...u }`: takes every field `u` names and keeps every other. */
  function Merge(n: Note, u: NoteUpdate): (r: Note)
    ensures Carries(r, u)
    ensures SameOutside(n, r, Named(u))
  {
    Note(
      Pick(u.id, n.id),
      Pick(u.text, n.text),
      Pick(u.dueDate, n.dueDate),
      Pick(u.completed, n.completed),
      Pick(u.x, n.x),
      Pick(u.y, n.y),
      Pick(u.z, n.z),
      Pick(u.color, n.color))
  }

  /** The merge is the only record that carries the update and keeps the
      other fields of `n`. */
  lemma MergeUnique(n: Note, u: NoteUpdate, r: Note)
    requires Carries(r, u) && SameOutside(n, r, Named(u))
    ensures r == Merge(n, u)
  {
    var m := Merge(n, u);
    assert r.id == m.id && r.text == m.text && r.dueDate == m.dueDate && r.completed == m.completed;
    assert r.x == m.x && r.y == m.y && r.z == m.z && r.color == m.color;
  }

  /** Merging the same update again changes nothing. */
  lemma MergeIdempotent(n: Note, u: NoteUpdate)
    ensures Merge(Merge(n, u), u) == Merge(n, u)
  {
  }
}
