/**
 * SimpleNotebook: notes persisted as one JSON array under a storage key, an
 * upsert-by-id save, a delete-by-id, a sidebar listing newest first, and the
 * editor's notion of the selected note.
 */
module Notebook {
  import opened JsBuiltins
  import opened Wrappers

  datatype Note = Note(id: string, title: string, content: string, timestamp: int)

  /** The plain object `toJSON` produces and `JSON.parse` gives back. */
  datatype NoteRecord = NoteRecord(id: string, title: string, content: string, timestamp: int)

  /** `new Note(o.id, o.title, o.content, o.timestamp)`. */
  function FromRecord(o: NoteRecord): Note {
    Note(o.id, o.title, o.content, o.timestamp)
  }

  /** `note.toJSON()`: the fields a note is rebuilt from. */
  function ToJson(n: Note): (o: NoteRecord)
    ensures FromRecord(o) == n
  {
    NoteRecord(n.id, n.title, n.content, n.timestamp)
  }

  /** The value under the `notes` key: missing or empty, not a JSON array, or the records. */
  datatype Slot = Absent | Corrupt | Holds(records: seq<NoteRecord>)

  /** `Storage.getAllNotes()`: the stored notes, or none when nothing usable is stored. */
  function AllNotes(slot: Slot): (notes: seq<Note>)
    ensures !slot.Holds? ==> notes == []
    ensures slot.Holds? ==> |notes| == |slot.records|
  {
    match slot
    case Holds(records) => seq(|records|, i requires 0 <= i < |records| => FromRecord(records[i]))
    case _ => []
  }

  /** `localStorage.setItem(STORAGE_KEY, JSON.stringify(notes))`. */
  function Stored(notes: seq<Note>): Slot {
    Holds(seq(|notes|, i requires 0 <= i < |notes| => ToJson(notes[i])))
  }

  /** Reading back what was stored gives the same notes. */
  lemma StoreThenLoad(notes: seq<Note>)
    ensures AllNotes(Stored(notes)) == notes
  {
    var back := AllNotes(Stored(notes));
    forall i | 0 <= i < |notes| ensures back[i] == notes[i] {
      assert back[i] == FromRecord(ToJson(notes[i]));
    }
  }

  function IdIs(id: string): Note -> bool { (n: Note) => n.id == id }

  function IdIsNot(id: string): Note -> bool { (n: Note) => n.id != id }

  /**
   * `saveNote`'s update: the first note with the same id is replaced in
   * place, or, when there is none, the note is appended.
   */
  function Upserted(notes: seq<Note>, note: Note): (r: seq<Note>)
    ensures (forall k :: 0 <= k < |notes| ==> notes[k].id != note.id) ==> r == notes + [note]
    ensures (exists k :: 0 <= k < |notes| && notes[k].id == note.id) ==> |r| == |notes|
    ensures forall k :: 0 <= k < |notes| && notes[k].id == note.id && (forall j :: 0 <= j < k ==> notes[j].id != note.id) ==>
              r[k] == note
    ensures forall k :: 0 <= k < |notes| && k < |r| && r[k] != notes[k] ==>
              notes[k].id == note.id && forall j :: 0 <= j < k ==> notes[j].id != note.id
  {
    var idx := FirstIndex(notes, IdIs(note.id));
    if idx >= 0 then notes[idx := note] else notes + [note]
  }

  /** After a save, looking the note up by its id finds that very note. */
  lemma UpsertedFinds(notes: seq<Note>, note: Note)
    ensures var r := Upserted(notes, note);
            var i := FirstIndex(r, IdIs(note.id));
            i >= 0 && r[i] == note
  {
    var r := Upserted(notes, note);
    var idx := FirstIndex(notes, IdIs(note.id));
    if idx >= 0 {
      assert r[idx].id == note.id;
    } else {
      assert r[|notes|].id == note.id;
    }
  }

  /** After `saveNote(note)`, reading the notes back and finding by the id gives that note. */
  lemma SavedFound(slot: Slot, note: Note)
    ensures var notes := AllNotes(Stored(Upserted(AllNotes(slot), note)));
            var i := FirstIndex(notes, IdIs(note.id));
            i >= 0 && notes[i] == note
  {
    StoreThenLoad(Upserted(AllNotes(slot), note));
    UpsertedFinds(AllNotes(slot), note);
  }

  /** Saving the same note twice stores what saving it once stores. */
  lemma UpsertedIdempotent(notes: seq<Note>, note: Note)
    ensures Upserted(Upserted(notes, note), note) == Upserted(notes, note)
  {
    var r := Upserted(notes, note);
    UpsertedFinds(notes, note);
    var i := FirstIndex(r, IdIs(note.id));
    assert r[i := note] == r;
  }

  /** `deleteNote`'s update: every note with the id goes, the others keep their order. */
  function WithoutNote(notes: seq<Note>, id: string): (r: seq<Note>)
    ensures forall k :: 0 <= k < |r| ==> r[k].id != id && r[k] in notes
    ensures forall k :: 0 <= k < |notes| && notes[k].id != id ==> notes[k] in r
  {
    Filter(notes, IdIsNot(id))
  }

  /** Deleting from a concatenation deletes from each part, so the survivors keep their relative order. */
  lemma WithoutNoteConcat(a: seq<Note>, b: seq<Note>, id: string)
    ensures WithoutNote(a + b, id) == WithoutNote(a, id) + WithoutNote(b, id)
  {
    FilterConcat(a, b, IdIsNot(id));
  }

  /** Deleting a note's id after saving it leaves what deleting it before would have left. */
  lemma DeleteUndoesSave(notes: seq<Note>, note: Note)
    ensures WithoutNote(Upserted(notes, note), note.id) == WithoutNote(notes, note.id)
  {
    var p := IdIsNot(note.id);
    var idx := FirstIndex(notes, IdIs(note.id));
    if idx >= 0 {
      FilterUpdateRejected(notes, idx, note, p);
    } else {
      FilterConcat(notes, [note], p);
    }
  }

  /** What `saveNote` receives: a `Note` instance, or anything else. */
  datatype SaveArg = NoteArg(note: Note) | NotANote

  /** The `Storage` object over the one slot it owns. */
  class NoteStorage {
    var slot: Slot

    constructor (slot: Slot)
      ensures this.slot == slot
    {
      this.slot := slot;
    }

    method GetAllNotes() returns (notes: seq<Note>)
      ensures notes == AllNotes(slot)
    {
      notes := AllNotes(slot);
    }

    /** `saveNote(note)`: anything but a note is refused and nothing is stored. */
    method SaveNote(arg: SaveArg)
      modifies this
      ensures arg.NotANote? ==> slot == old(slot)
      ensures arg.NoteArg? ==> slot == Stored(Upserted(AllNotes(old(slot)), arg.note))
    {
      if arg.NotANote? {
        return;
      }
      var notes := GetAllNotes();
      var idx := FirstIndex(notes, IdIs(arg.note.id));
      if idx >= 0 {
        notes := notes[idx := arg.note];
      } else {
        notes := notes + [arg.note];
      }
      slot := Stored(notes);
    }

    /** `deleteNote(id)`. */
    method DeleteNote(id: string)
      modifies this
      ensures slot == Stored(WithoutNote(AllNotes(old(slot)), id))
    {
      var notes := GetAllNotes();
      slot := Stored(Filter(notes, IdIsNot(id)));
    }
  }

  /** The sort key of `(a, b) => b.timestamp - a.timestamp`. */
  function Recency(n: Note): int { -n.timestamp }

  /** The sidebar order: newest first, notes with equal timestamps in their stored order. */
  function NewestFirst(notes: seq<Note>): (r: seq<Note>)
    ensures multiset(r) == multiset(notes)
    ensures forall i, j :: 0 <= i < j < |r| ==> r[i].timestamp >= r[j].timestamp
  {
    var r := SortBy(notes, Recency);
    assert forall i, j :: 0 <= i < j < |r| ==> Recency(r[i]) <= Recency(r[j]);
    r
  }

  /** The note shown at the top of the sidebar is at least as recent as every note. */
  lemma NewestFirstHead(notes: seq<Note>)
    requires |notes| > 0
    ensures |NewestFirst(notes)| > 0
    ensures forall k :: 0 <= k < |notes| ==> notes[k].timestamp <= NewestFirst(notes)[0].timestamp
  {
    var r := NewestFirst(notes);
    assert |r| == |multiset(r)| == |notes|;
    forall k | 0 <= k < |notes| ensures notes[k].timestamp <= r[0].timestamp {
      assert notes[k] in multiset(r);
      var m :| 0 <= m < |r| && r[m] == notes[k];
    }
  }

  /** A sidebar entry: the note's id, the text shown and whether it is highlighted. */
  datatype Entry = Entry(id: string, caption: string, selected: bool)

  /** `note.title || '(Untitled)'`: a blank title is never shown as blank. */
  function Label(n: Note): (s: string)
    ensures |s| > 0
    ensures n.title != "" ==> s == n.title
  {
    if n.title == "" then "(Untitled)" else n.title
  }

  /** The sidebar for `notes`: one entry per note, in order, captioned and highlighted when selected. */
  function Entries(notes: seq<Note>, selected: Option<string>): (r: seq<Entry>)
    ensures |r| == |notes|
    ensures forall i :: 0 <= i < |r| ==>
              r[i].id == notes[i].id && r[i].caption == Label(notes[i]) && |r[i].caption| > 0
              && (r[i].selected <==> selected == Some(notes[i].id))
  {
    seq(|notes|, i requires 0 <= i < |notes| => Entry(notes[i].id, Label(notes[i]), selected == Some(notes[i].id)))
  }

  /** The `forEach` of `renderNoteList`: one entry per note, in the order given. */
  method ListEntries(notes: seq<Note>, selected: Option<string>) returns (entries: seq<Entry>)
    ensures entries == Entries(notes, selected)
  {
    entries := [];
    var i := 0;
    while i < |notes|
      invariant 0 <= i <= |notes|
      invariant entries == Entries(notes[..i], selected)
    {
      entries := entries + [Entry(notes[i].id, Label(notes[i]), selected == Some(notes[i].id))];
      i := i + 1;
    }
    assert notes[..i] == notes;
  }

  /** The highlight toggled on each entry: on exactly for the entries whose id is `selected`. */
  function Marked(entries: seq<Entry>, selected: Option<string>): (r: seq<Entry>)
    ensures |r| == |entries|
    ensures forall i :: 0 <= i < |r| ==>
              r[i].id == entries[i].id && r[i].caption == entries[i].caption && (r[i].selected <==> selected == Some(entries[i].id))
  {
    seq(|entries|, i requires 0 <= i < |entries| => entries[i].(selected := selected == Some(entries[i].id)))
  }

  /** `if (selectedNoteId)`: no selection, and a selected empty id, both count as no selection. */
  predicate Truthy(selected: Option<string>) {
    selected.Some? && selected.value != ""
  }

  /** The editor: the selection, the two input fields and the sidebar list. */
  class NotebookUi {
    const storage: NoteStorage
    var selectedId: Option<string>
    var titleInput: string
    var contentInput: string
    var listed: seq<Entry>

    constructor (storage: NoteStorage)
      ensures this.storage == storage && selectedId == None
      ensures titleInput == "" && contentInput == "" && listed == []
    {
      this.storage := storage;
      selectedId := None;
      titleInput := "";
      contentInput := "";
      listed := [];
    }

    /** `renderNoteList(notes)`: sorts the array it is given in place, then lists it. */
    method RenderNoteList(notes: array<Note>)
      modifies notes, this`listed
      ensures notes[..] == NewestFirst(old(notes[..]))
      ensures listed == Entries(notes[..], selectedId)
    {
      SortInPlace(notes, Recency);
      listed := ListEntries(notes[..], selectedId);
    }

    /** Sets each entry's highlight from its id, as the two `forEach` loops over the list items do. */
    method MarkSelected(selected: Option<string>)
      modifies this`listed
      ensures listed == Marked(old(listed), selected)
    {
      ghost var before := listed;
      var i := 0;
      while i < |listed|
        invariant 0 <= i <= |listed| == |before|
        invariant forall k :: 0 <= k < i ==> listed[k] == Marked(before, selected)[k]
        invariant forall k :: i <= k < |listed| ==> listed[k] == before[k]
      {
        listed := listed[i := listed[i].(selected := selected == Some(listed[i].id))];
        i := i + 1;
      }
    }

    /** `loadNoteIntoEditor(id)`: selects the first stored note with the id; an unknown id changes nothing. */
    method LoadNoteIntoEditor(id: string)
      modifies this`selectedId, this`titleInput, this`contentInput, this`listed
      ensures var notes := AllNotes(storage.slot);
              var i := FirstIndex(notes, IdIs(id));
              if i < 0 then
                selectedId == old(selectedId) && titleInput == old(titleInput)
                && contentInput == old(contentInput) && listed == old(listed)
              else
                selectedId == Some(id) && titleInput == notes[i].title && contentInput == notes[i].content
                && listed == Marked(old(listed), Some(id))
    {
      var notes := storage.GetAllNotes();
      var i := FirstIndex(notes, IdIs(id));
      if i < 0 {
        return;
      }
      selectedId := Some(notes[i].id);
      titleInput := notes[i].title;
      contentInput := notes[i].content;
      MarkSelected(Some(id));
    }

    /** `clearEditor()`: no selection, empty fields, no highlight. */
    method ClearEditor()
      modifies this`selectedId, this`titleInput, this`contentInput, this`listed
      ensures selectedId == None && titleInput == "" && contentInput == ""
      ensures listed == Marked(old(listed), None)
    {
      selectedId := None;
      titleInput := "";
      contentInput := "";
      MarkSelected(None);
    }

    /** `renderNoteList(Storage.getAllNotes())`: the stored notes are listed newest first. */
    method Redraw() returns (shown: seq<Note>)
      modifies this`listed
      ensures shown == NewestFirst(AllNotes(storage.slot))
      ensures listed == Entries(shown, selectedId)
    {
      var notes := storage.GetAllNotes();
      var a := new Note[|notes|](i requires 0 <= i < |notes| => notes[i]);
      assert a[..] == notes;
      RenderNoteList(a);
      shown := a[..];
    }

    /**
     * The save button: the trimmed fields are saved under the selected id, or
     * under `freshId` when nothing is selected, stamped `now`; the list is
     * redrawn and the saved note is selected.
     */
    method OnSave(freshId: string, now: int)
      modifies this`selectedId, this`titleInput, this`contentInput, this`listed, storage
      ensures var id := if Truthy(old(selectedId)) then old(selectedId).value else freshId;
              var note := Note(id, Trim(old(titleInput)), Trim(old(contentInput)), now);
              && storage.slot == Stored(Upserted(AllNotes(old(storage.slot)), note))
              && selectedId == Some(id) && titleInput == note.title && contentInput == note.content
              && listed == Marked(Entries(NewestFirst(AllNotes(storage.slot)), old(selectedId)), Some(id))
    {
      var id := if Truthy(selectedId) then selectedId.value else freshId;
      var note := Note(id, Trim(titleInput), Trim(contentInput), now);
      SavedFound(storage.slot, note);
      storage.SaveNote(NoteArg(note));
      var _ := Redraw();
      LoadNoteIntoEditor(note.id);
    }

    /**
     * The delete button: nothing happens without a selection; otherwise the
     * selected note is deleted, the editor cleared, and the newest remaining
     * note, if any, selected.
     */
    method OnDelete()
      modifies this`selectedId, this`titleInput, this`contentInput, this`listed, storage
      ensures !Truthy(old(selectedId)) ==>
                storage.slot == old(storage.slot) && selectedId == old(selectedId)
                && titleInput == old(titleInput) && contentInput == old(contentInput) && listed == old(listed)
      ensures Truthy(old(selectedId)) ==>
                var rest := WithoutNote(AllNotes(old(storage.slot)), old(selectedId).value);
                && storage.slot == Stored(rest)
                && (rest == [] ==> selectedId == None && titleInput == "" && contentInput == "" && listed == [])
                && (rest != [] ==>
                      var top := NewestFirst(rest)[0];
                      var i := FirstIndex(rest, IdIs(top.id));
                      && 0 <= i && selectedId == Some(top.id)
                      && titleInput == rest[i].title && contentInput == rest[i].content
                      && listed == Marked(Entries(NewestFirst(rest), None), Some(top.id)))
    {
      if !Truthy(selectedId) {
        return;
      }
      ghost var rest := WithoutNote(AllNotes(storage.slot), selectedId.value);
      storage.DeleteNote(selectedId.value);
      StoreThenLoad(rest);
      ClearEditor();
      var shown := Redraw();
      if |shown| > 0 {
        assert shown[0] in multiset(rest);
        assert shown[0] in rest;
        LoadNoteIntoEditor(shown[0].id);
      }
    }
  }
}
