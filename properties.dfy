/** What the operations promise together: keys never collide, a write is read back by its
    own user only, what is created or updated is what a later lookup finds, and what is
    deleted is gone. */
module NotesProperties {
  import opened NotesTypes
  import opened KvNotes

  /** The storage key splits back into the prefix and the user id. */
  lemma UserKeySplits(userId: string)
    ensures |UserKey(userId)| == |KeyPrefix| + |userId|
    ensures UserKey(userId)[..|KeyPrefix|] == KeyPrefix && UserKey(userId)[|KeyPrefix|..] == userId
  {
  }

  /** Key derivation is injective: distinct user ids never share a key. */
  lemma UserKeyInjective(a: string, b: string)
    ensures UserKey(a) == UserKey(b) <==> a == b
  {
    UserKeySplits(a);
    UserKeySplits(b);
  }

  /** A user whose key holds nothing reads the empty document. */
  lemma NeverWrittenIsEmpty(store: map<string, NotesData>, userId: Option<string>)
    requires !Present(userId) || UserKey(userId.value) !in store
    ensures GetNotesForUser(store, userId) == EmptyNotes
  {
  }

  /** After a document is put under a present user's key, that user reads it back. */
  lemma ReadAfterWrite(store: map<string, NotesData>, userId: Option<string>, notes: NotesData)
    requires Present(userId)
    ensures GetNotesForUser(store[UserKey(userId.value) := notes], userId) == notes
  {
  }

  /** A write under one user's key leaves what every other user reads unchanged. */
  lemma WriteIsolatesUsers(store: map<string, NotesData>, writer: string, reader: Option<string>, notes: NotesData)
    requires reader != Some(writer)
    ensures GetNotesForUser(store[UserKey(writer) := notes], reader) == GetNotesForUser(store, reader)
  {
    if Present(reader) {
      UserKeyInjective(writer, reader.value);
    }
  }

  /** After createEmptyCategory / addCategory writes, looking the new id up finds the new
      category, unless the document already held a category with that id: ids are not
      checked for uniqueness, and the older category then shadows the new one. */
  lemma CreatedCategoryLookup(store: map<string, NotesData>, userId: Option<string>, c: Category)
    requires Present(userId)
    ensures
      var after := store[UserKey(userId.value) := NotesData(GetNotesForUser(store, userId).categories + [c])];
      GetCategory(after, userId, c.id) == if GetCategory(store, userId, c.id).None? then Some(c) else GetCategory(store, userId, c.id)
  {
    var cats := GetNotesForUser(store, userId).categories;
    var notes := NotesData(cats + [c]);
    var after := store[UserKey(userId.value) := notes];
    ReadAfterWrite(store, userId, notes);
    match CategoryIndex(cats, c.id)
    case None =>
      assert IsFirstCategory(notes.categories, |cats|, c.id);
    case Some(i) =>
      assert IsFirstCategory(notes.categories, i, c.id);
  }

  /** A note added under an existing category is what getNote then finds, provided its id
      is new to the document. */
  lemma AddedNoteIsFound(doc: NotesData, categoryId: string, n: Note)
    requires AddNoteTo(doc, categoryId, n).Ok?
    requires forall j :: 0 <= j < |doc.categories| ==> !HasNote(doc.categories[j], n.id)
    ensures FindNote(AddNoteTo(doc, categoryId, n).value.categories, n.id) == Some(n)
  {
    var cats := doc.categories;
    var i := CategoryIndex(cats, categoryId).value;
    var after := AddNoteTo(doc, categoryId, n).value.categories;
    assert OnlyChangedAt(cats, after, i, Category(cats[i].id, cats[i].name, cats[i].notes + [n]));
    var k := |cats[i].notes|;
    assert after[i].notes[k] == n;
    assert IsFirstHolder(after, i, n.id) by {
      forall j | 0 <= j < i
        ensures !HasNote(after[j], n.id)
      {
        assert after[j] == cats[j];
      }
    }
    assert IsFirstNote(after[i].notes, k, n.id) by {
      assert !HasNote(cats[i], n.id);
      forall j | 0 <= j < k
        ensures after[i].notes[j].id != n.id
      {
        assert after[i].notes[j] == cats[i].notes[j];
      }
    }
  }

  /** When the first category with that category id, `i`, holds the note id and no category
      before it does, updateNote succeeds and getNote then finds the note with its id kept
      and the new title and body. */
  lemma UpdatedNoteIsFound(doc: NotesData, categoryId: string, noteId: string, title: string, body: string, i: nat)
    requires IsFirstCategory(doc.categories, i, categoryId) && HasNote(doc.categories[i], noteId)
    requires forall j :: 0 <= j < i ==> !HasNote(doc.categories[j], noteId)
    ensures FindNote(UpdateNoteIn(doc, categoryId, noteId, title, body).value.categories, noteId) == Some(Note(noteId, title, body))
  {
  }

  /** When a category before the first one with that category id already holds the note id,
      updateNote changes the note in the category it names, but getNote keeps returning
      exactly what it returned before the update. */
  lemma UpdateShadowedByEarlierHolder(doc: NotesData, categoryId: string, noteId: string, title: string, body: string, i: nat, h: nat)
    requires UpdateNoteIn(doc, categoryId, noteId, title, body).Ok?
    requires IsFirstCategory(doc.categories, i, categoryId)
    requires h < i && HasNote(doc.categories[h], noteId)
    ensures FindNote(UpdateNoteIn(doc, categoryId, noteId, title, body).value.categories, noteId) == FindNote(doc.categories, noteId)
  {
  }

  /** When no category after the first one with that id shares it, deleteCategory leaves no
      category with that id, so getCategory then finds nothing. */
  lemma DeletedCategoryIsGone(doc: NotesData, categoryId: string)
    requires DeleteCategoryFrom(doc, categoryId).Ok?
    requires forall j :: 0 <= j < |doc.categories| && doc.categories[j].id == categoryId ==>
      IsFirstCategory(doc.categories, j, categoryId)
    ensures
      var after := DeleteCategoryFrom(doc, categoryId).value.categories;
      forall j :: 0 <= j < |after| ==> after[j].id != categoryId
  {
  }

  /** deleteCategory takes the category's notes with it: a note held only by the category
      it removes (the first one with that id) is no longer found by getNote. */
  lemma DeletedCategoryTakesItsNotes(doc: NotesData, categoryId: string, noteId: string)
    requires DeleteCategoryFrom(doc, categoryId).Ok?
    requires forall j :: 0 <= j < |doc.categories| && HasNote(doc.categories[j], noteId) ==>
      IsFirstCategory(doc.categories, j, categoryId)
    ensures FindNote(DeleteCategoryFrom(doc, categoryId).value.categories, noteId).None?
  {
  }

  // ---------------------------------------------------------------------------
  // How many notes the document holds

  /** The number of notes in all categories. */
  function NoteCount(cats: seq<Category>): nat
  {
    if |cats| == 0 then 0 else |cats[0].notes| + NoteCount(cats[1..])
  }

  /** Replacing one category changes the count by the difference in its notes. */
  lemma {:induction false} NoteCountChangedAt(before: seq<Category>, after: seq<Category>, i: int, c: Category)
    requires OnlyChangedAt(before, after, i, c)
    ensures NoteCount(after) == NoteCount(before) - |before[i].notes| + |c.notes|
    decreases |before|
  {
    if i == 0 {
      assert after[1..] == before[1..];
    } else {
      assert after[0] == before[0];
      NoteCountChangedAt(before[1..], after[1..], i - 1, c);
    }
  }

  /** Removing one category removes exactly its notes from the count. */
  lemma {:induction false} NoteCountRemoveAt(cats: seq<Category>, i: nat)
    requires i < |cats|
    ensures NoteCount(RemoveAt(cats, i)) == NoteCount(cats) - |cats[i].notes|
    decreases |cats|
  {
    if i == 0 {
      assert RemoveAt(cats, i) == cats[1..];
    } else {
      assert RemoveAt(cats, i)[0] == cats[0];
      assert RemoveAt(cats, i)[1..] == RemoveAt(cats[1..], i - 1);
      NoteCountRemoveAt(cats[1..], i - 1);
    }
  }

  /** Appending a category adds exactly its notes to the count. */
  lemma {:induction false} NoteCountAppend(cats: seq<Category>, c: Category)
    ensures NoteCount(cats + [c]) == NoteCount(cats) + |c.notes|
    decreases |cats|
  {
    if |cats| == 0 {
      assert (cats + [c])[1..] == [];
    } else {
      assert (cats + [c])[1..] == cats[1..] + [c];
      NoteCountAppend(cats[1..], c);
    }
  }

  /** createEmptyCategory and addCategory add a category without notes, so the note count
      of the document they write equals that of the document they read. */
  lemma CreateCategoryKeepsNoteCount(doc: NotesData, name: string, freshId: string)
    ensures NoteCount(doc.categories + [Category(freshId, name, [])]) == NoteCount(doc.categories)
  {
    NoteCountAppend(doc.categories, Category(freshId, name, []));
  }

  /** createEmptyNote / addNote add exactly one note to the document. */
  lemma AddNoteCountsOneMore(doc: NotesData, categoryId: string, n: Note)
    requires AddNoteTo(doc, categoryId, n).Ok?
    ensures NoteCount(AddNoteTo(doc, categoryId, n).value.categories) == NoteCount(doc.categories) + 1
  {
    var cats := doc.categories;
    var i := CategoryIndex(cats, categoryId).value;
    NoteCountChangedAt(cats, AddNoteTo(doc, categoryId, n).value.categories, i,
      Category(cats[i].id, cats[i].name, cats[i].notes + [n]));
  }

  /** deleteNote, when it writes, removes exactly one note from the document. */
  lemma DeleteNoteCountsOneLess(doc: NotesData, noteId: string)
    requires DeleteNoteFrom(doc, noteId).Some?
    ensures NoteCount(DeleteNoteFrom(doc, noteId).value.categories) == NoteCount(doc.categories) - 1
  {
    var cats := doc.categories;
    var i := NoteHolder(cats, noteId).value;
    var k := NoteIndex(cats[i].notes, noteId).value;
    NoteCountChangedAt(cats, DeleteNoteFrom(doc, noteId).value.categories, i,
      Category(cats[i].id, cats[i].name, RemoveAt(cats[i].notes, k)));
  }

  /** deleteCategory removes exactly the deleted category's notes from the document. */
  lemma DeleteCategoryDropsItsNotes(doc: NotesData, categoryId: string)
    requires DeleteCategoryFrom(doc, categoryId).Ok?
    ensures
      var i := CategoryIndex(doc.categories, categoryId).value;
      NoteCount(DeleteCategoryFrom(doc, categoryId).value.categories) == NoteCount(doc.categories) - |doc.categories[i].notes|
  {
    NoteCountRemoveAt(doc.categories, CategoryIndex(doc.categories, categoryId).value);
  }

  /** updateNote and updateCategory add and remove no note. */
  lemma UpdatesKeepNoteCount(doc: NotesData, categoryId: string, noteId: string, title: string, body: string, name: string)
    ensures UpdateNoteIn(doc, categoryId, noteId, title, body).Ok? ==>
      NoteCount(UpdateNoteIn(doc, categoryId, noteId, title, body).value.categories) == NoteCount(doc.categories)
    ensures RenameCategoryIn(doc, categoryId, name).Ok? ==>
      NoteCount(RenameCategoryIn(doc, categoryId, name).value.categories) == NoteCount(doc.categories)
  {
    var cats := doc.categories;
    if UpdateNoteIn(doc, categoryId, noteId, title, body).Ok? {
      var i := CategoryIndex(cats, categoryId).value;
      assert HasNote(cats[i], noteId);
      var after := UpdateNoteIn(doc, categoryId, noteId, title, body).value.categories;
      NoteCountChangedAt(cats, after, i, Category(cats[i].id, cats[i].name, after[i].notes));
    }
    if RenameCategoryIn(doc, categoryId, name).Ok? {
      var i := CategoryIndex(cats, categoryId).value;
      NoteCountChangedAt(cats, RenameCategoryIn(doc, categoryId, name).value.categories, i,
        Category(cats[i].id, name, cats[i].notes));
    }
  }
}
