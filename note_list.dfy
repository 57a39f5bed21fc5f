/**
 * The values the notes store computes for its collection: the new array that
 * `addNote`, `updateNote`, `deleteNote` and `bringToTop` hand to `setNotes`,
 * as functions of the current array.
 */
module NoteList {
  import opened Wrappers
  import opened Notes

  /** `Math.max(...notes.map(n => n.z), 0)`: the highest stacking index, and
      0 for an empty collection or one whose indices are all negative. */
  function MaxZ(notes: seq<Note>): (m: int)
    ensures 0 <= m
    ensures forall i :: 0 <= i < |notes| ==> notes[i].z <= m
    ensures m == 0 || exists i :: 0 <= i < |notes| && notes[i].z == m
  {
    if notes == [] then 0
    else
      var rest := MaxZ(notes[1..]);
      if notes[0].z > rest then notes[0].z else rest
  }

  /** The note `addNote` creates. `id` stands for `crypto.randomUUID()`,
      `colorIndex` for `Math.floor(Math.random() * COLORS.length)` and
      `x`, `y` for the centred viewport position. */
  function NewNote(notes: seq<Note>, id: string, colorIndex: nat, x: int, y: int): (n: Note)
    requires colorIndex < |Colors|
    ensures n.id == id && n.text == "" && n.dueDate == None && !n.completed
    ensures n.x == x && n.y == y && n.color in Colors
    ensures n.z >= 1 && forall i :: 0 <= i < |notes| ==> notes[i].z < n.z
    ensures n.z == MaxZ(notes) + 1 && n.color == Colors[colorIndex]
  {
    Note(id, "", None, false, x, y, MaxZ(notes) + 1, Colors[colorIndex])
  }

  /** `addNote`: one new note appended after the existing ones, which keep
      their values and order. */
  function AddNote(notes: seq<Note>, id: string, colorIndex: nat, x: int, y: int): (r: seq<Note>)
    requires colorIndex < |Colors|
    ensures |r| == |notes| + 1 && r[..|notes|] == notes
    ensures r[|notes|] == NewNote(notes, id, colorIndex, x, y)
  {
    notes + [NewNote(notes, id, colorIndex, x, y)]
  }

  /** `updateNote`: every note with the given id takes the fields the update
      names; every other note is left as it is, in the same place. */
  function UpdateNote(notes: seq<Note>, id: string, u: NoteUpdate): (r: seq<Note>)
    ensures |r| == |notes|
    ensures forall i :: 0 <= i < |notes| && notes[i].id != id ==> r[i] == notes[i]
    ensures forall i :: 0 <= i < |notes| && notes[i].id == id ==>
              Carries(r[i], u) && SameOutside(notes[i], r[i], Named(u))
  {
    if notes == [] then []
    else
      var n := notes[0];
      [if n.id == id then Merge(n, u) else n] + UpdateNote(notes[1..], id, u)
  }

  /** The update `bringToTop` applies: only `z` is named. */
  function Raise(z: int): (u: NoteUpdate)
    ensures Named(u) == {Z} && u.z == Some(z)
  {
    NoChanges.(z := Some(z))
  }

  /** `bringToTop`: every note with the given id gets a stacking index above
      every index in the collection; no other note and no other field
      changes. */
  function BringToTop(notes: seq<Note>, id: string): (r: seq<Note>)
    ensures |r| == |notes|
    ensures forall i :: 0 <= i < |notes| && notes[i].id != id ==> r[i] == notes[i]
    ensures forall i :: 0 <= i < |notes| && notes[i].id == id ==>
              r[i] == notes[i].(z := MaxZ(notes) + 1)
    ensures forall i, j :: 0 <= i < |notes| && 0 <= j < |notes| && notes[i].id == id ==>
              notes[j].z < r[i].z
    ensures forall i, j :: 0 <= i < |notes| && 0 <= j < |notes| && notes[i].id == id && notes[j].id != id ==>
              r[j].z < r[i].z
  {
    var r := UpdateNote(notes, id, Raise(MaxZ(notes) + 1));
    assert forall i :: 0 <= i < |notes| && notes[i].id == id ==> r[i] == notes[i].(z := MaxZ(notes) + 1) by {
      forall i | 0 <= i < |notes| && notes[i].id == id
        ensures r[i] == notes[i].(z := MaxZ(notes) + 1)
      {
        MergeUnique(notes[i], Raise(MaxZ(notes) + 1), r[i]);
      }
    }
    r
  }

  /** `deleteNote`: the notes whose id differs, in their original order. */
  function DeleteNote(notes: seq<Note>, id: string): (r: seq<Note>)
    ensures |r| == |notes| - Count(notes, id)
    ensures forall n :: n in r ==> n in notes && n.id != id
    ensures forall n :: n in notes && n.id != id ==> n in r
    ensures IsSubsequence(r, notes)
  {
    if notes == [] then []
    else if notes[0].id == id then DeleteNote(notes[1..], id)
    else [notes[0]] + DeleteNote(notes[1..], id)
  }

  /** The ids of the notes, in collection order: `notes.map(n => n.id)`. */
  function IdList(notes: seq<Note>): seq<string>
  {
    seq(|notes|, i requires 0 <= i < |notes| => notes[i].id)
  }

  /** How many notes carry the id: its multiplicity among the ids. */
  function Count(notes: seq<Note>, id: string): (c: nat)
    ensures c <= |notes|
    ensures c == multiset(IdList(notes))[id]
    ensures c == 0 <==> id !in Ids(notes)
  {
    if notes == [] then 0
    else
      assert IdList(notes) == [notes[0].id] + IdList(notes[1..]);
      (if notes[0].id == id then 1 else 0) + Count(notes[1..], id)
  }

  function Ids(notes: seq<Note>): set<string>
  {
    set n | n in notes :: n.id
  }

  /** No two notes share an id, as `crypto.randomUUID` makes it. */
  predicate UniqueIds(notes: seq<Note>)
  {
    forall i, j :: 0 <= i < j < |notes| ==> notes[i].id != notes[j].id
  }

  /** `s` is `t` with some elements left out and the rest in order. */
  predicate IsSubsequence<T(==)>(s: seq<T>, t: seq<T>)
    decreases |t|
  {
    if s == [] then true
    else if t == [] then false
    else if s[0] == t[0] then IsSubsequence(s[1..], t[1..])
    else IsSubsequence(s, t[1..])
  }

  /** Every note's colour is one of the palette's names. */
  predicate PaletteColors(notes: seq<Note>)
  {
    forall i :: 0 <= i < |notes| ==> notes[i].color in Colors
  }

  // Properties of updateNote

  /** Updating an id no note carries leaves the collection as it is. */
  lemma UpdateNoteAbsent(notes: seq<Note>, id: string, u: NoteUpdate)
    requires id !in Ids(notes)
    ensures UpdateNote(notes, id, u) == notes
  {
    var r := UpdateNote(notes, id, u);
    forall i | 0 <= i < |notes| ensures r[i] == notes[i] {
      assert notes[i] in notes;
    }
  }

  /** Applying the same update twice is applying it once. */
  lemma UpdateNoteIdempotent(notes: seq<Note>, id: string, u: NoteUpdate)
    ensures UpdateNote(UpdateNote(notes, id, u), id, u) == UpdateNote(notes, id, u)
  {
    var r1 := UpdateNote(notes, id, u);
    var r2 := UpdateNote(r1, id, u);
    forall i | 0 <= i < |notes| ensures r2[i] == r1[i] {
      if notes[i].id == id {
        MergeUnique(notes[i], u, r1[i]);
        if r1[i].id == id {
          MergeUnique(r1[i], u, r2[i]);
          MergeIdempotent(notes[i], u);
        }
      }
    }
  }

  /** An update that does not name `id` keeps every note's id, so ids stay
      distinct. */
  lemma UpdateNoteKeepsIds(notes: seq<Note>, id: string, u: NoteUpdate)
    requires u.id.None?
    ensures var r := UpdateNote(notes, id, u);
            forall i :: 0 <= i < |notes| ==> r[i].id == notes[i].id
    ensures UniqueIds(notes) ==> UniqueIds(UpdateNote(notes, id, u))
  {
  }

  // Properties of bringToTop

  /** Raising `a` and then `b` leaves every `b` note above every `a` note. */
  lemma BringToTopTwice(notes: seq<Note>, a: string, b: string)
    requires a != b
    ensures var r := BringToTop(BringToTop(notes, a), b);
            forall i, j :: 0 <= i < |r| && 0 <= j < |r| && r[i].id == b && r[j].id == a ==>
              r[j].z < r[i].z
  {
  }

  /** Raising an id no note carries leaves the collection as it is. */
  lemma BringToTopAbsent(notes: seq<Note>, id: string)
    requires id !in Ids(notes)
    ensures BringToTop(notes, id) == notes
  {
    UpdateNoteAbsent(notes, id, Raise(MaxZ(notes) + 1));
  }

  /** Raising keeps every note's id, so ids stay distinct. */
  lemma BringToTopKeepsUniqueIds(notes: seq<Note>, id: string)
    requires UniqueIds(notes)
    ensures UniqueIds(BringToTop(notes, id))
  {
  }

  // Properties of addNote and deleteNote

  /** A fresh id keeps the ids distinct. */
  lemma AddNoteKeepsUniqueIds(notes: seq<Note>, id: string, colorIndex: nat, x: int, y: int)
    requires colorIndex < |Colors|
    requires UniqueIds(notes) && id !in Ids(notes)
    ensures UniqueIds(AddNote(notes, id, colorIndex, x, y))
  {
    var r := AddNote(notes, id, colorIndex, x, y);
    forall i, j | 0 <= i < j < |r| ensures r[i].id != r[j].id {
      if j == |notes| {
        assert r[i] == notes[i] && notes[i] in notes;
      }
    }
  }

  /** Deleting an id no note carries leaves the collection as it is. */
  lemma {:induction false} DeleteNoteAbsent(notes: seq<Note>, id: string)
    requires id !in Ids(notes)
    ensures DeleteNote(notes, id) == notes
  {
    if notes != [] {
      assert notes[0] in notes;
      assert Ids(notes[1..]) <= Ids(notes) by {
        forall n | n in notes[1..] ensures n in notes { }
      }
      DeleteNoteAbsent(notes[1..], id);
      assert notes == [notes[0]] + notes[1..];
    }
  }

  /** Deleting distributes over concatenation: the survivors of each part
      stay in their order, the first part's before the second's. */
  lemma {:induction false} DeleteNoteAppend(a: seq<Note>, b: seq<Note>, id: string)
    ensures DeleteNote(a + b, id) == DeleteNote(a, id) + DeleteNote(b, id)
  {
    if a == [] {
      assert a + b == b;
    } else {
      assert (a + b)[0] == a[0];
      assert (a + b)[1..] == a[1..] + b;
      DeleteNoteAppend(a[1..], b, id);
    }
  }

  /** Deleting the note just added under a fresh id restores the collection. */
  lemma DeleteAfterAdd(notes: seq<Note>, id: string, colorIndex: nat, x: int, y: int)
    requires colorIndex < |Colors|
    requires id !in Ids(notes)
    ensures DeleteNote(AddNote(notes, id, colorIndex, x, y), id) == notes
  {
    var n := NewNote(notes, id, colorIndex, x, y);
    assert AddNote(notes, id, colorIndex, x, y) == notes + [n];
    DeleteNoteAppend(notes, [n], id);
    DeleteNoteAbsent(notes, id);
    assert DeleteNote([n], id) == [];
    assert notes + [] == notes;
  }

  /** With distinct ids the first note's id occurs nowhere after it. */
  lemma HeadIdNotInTail(notes: seq<Note>)
    requires notes != [] && UniqueIds(notes)
    ensures notes[0].id !in Ids(notes[1..])
  {
    forall n | n in notes[1..] ensures n.id != notes[0].id {
      var j :| 0 <= j < |notes[1..]| && notes[1..][j] == n;
      assert notes[j + 1] == n;
    }
  }

  /** With distinct ids a note occurs at most once. */
  lemma {:induction false} CountUnique(notes: seq<Note>, id: string)
    requires UniqueIds(notes)
    ensures Count(notes, id) <= 1
  {
    if notes != [] {
      CountUnique(notes[1..], id);
      if notes[0].id == id {
        HeadIdNotInTail(notes);
      }
    }
  }

  /** With distinct ids, deleting a present id removes exactly one note. */
  lemma DeleteNoteRemovesOne(notes: seq<Note>, id: string)
    requires UniqueIds(notes) && id in Ids(notes)
    ensures |DeleteNote(notes, id)| == |notes| - 1
  {
    CountUnique(notes, id);
  }

  /** Deleting keeps the ids distinct. */
  lemma {:induction false} DeleteNoteKeepsUniqueIds(notes: seq<Note>, id: string)
    requires UniqueIds(notes)
    ensures UniqueIds(DeleteNote(notes, id))
  {
    if notes != [] {
      DeleteNoteKeepsUniqueIds(notes[1..], id);
      if notes[0].id != id {
        HeadIdNotInTail(notes);
        var rest := DeleteNote(notes[1..], id);
        forall k | 0 <= k < |rest| ensures rest[k].id != notes[0].id {
          assert rest[k] in rest;
        }
        var r := [notes[0]] + rest;
        forall i, j | 0 <= i < j < |r| ensures r[i].id != r[j].id {
          assert r[j] == rest[j - 1];
          if i > 0 { assert r[i] == rest[i - 1]; }
        }
      }
    }
  }

  /** Deleting twice is deleting once. */
  lemma DeleteNoteIdempotent(notes: seq<Note>, id: string)
    ensures DeleteNote(DeleteNote(notes, id), id) == DeleteNote(notes, id)
  {
    DeleteNoteAbsent(DeleteNote(notes, id), id);
  }

  // The palette: no operation introduces a colour outside it

  /** A new note takes a palette colour. */
  lemma AddNoteKeepsPalette(notes: seq<Note>, id: string, colorIndex: nat, x: int, y: int)
    requires colorIndex < |Colors| && PaletteColors(notes)
    ensures PaletteColors(AddNote(notes, id, colorIndex, x, y))
  {
  }

  /** An update keeps the palette unless it names a colour outside it. */
  lemma UpdateNoteKeepsPalette(notes: seq<Note>, id: string, u: NoteUpdate)
    requires PaletteColors(notes)
    requires u.color.None? || u.color.value in Colors
    ensures PaletteColors(UpdateNote(notes, id, u))
  {
  }

  /** Raising a note does not touch colours. */
  lemma BringToTopKeepsPalette(notes: seq<Note>, id: string)
    requires PaletteColors(notes)
    ensures PaletteColors(BringToTop(notes, id))
  {
  }

  /** Deleting only drops notes. */
  lemma DeleteNoteKeepsPalette(notes: seq<Note>, id: string)
    requires PaletteColors(notes)
    ensures PaletteColors(DeleteNote(notes, id))
  {
  }
}
