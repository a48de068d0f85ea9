/** Clients of the notes store: call sequences whose outcome follows from the operations'
    contracts alone. */
module NotesScenarios {
  import opened NotesTypes
  import opened KvNotes
  import opened NotesStoreClass

  /** A new user creates a category, adds a note to it, and reads everything back: one
      category holding exactly that note. */
  method GroceriesScenario(initial: map<string, NotesData>, userId: string, categoryId: string, noteId: string)
    returns (created: Option<Category>, added: Result<Note>, all: NotesData)
    requires userId != "" && UserKey(userId) !in initial
    ensures created == Some(Category(categoryId, "", []))
    ensures added == Ok(Note(noteId, "Groceries", "milk, eggs"))
    ensures all == NotesData([Category(categoryId, "", [Note(noteId, "Groceries", "milk, eggs")])])
  {
    var s := new NotesStore(initial);
    created := s.CreateEmptyCategory(Some(userId), categoryId);
    ghost var first := GetNotesForUser(s.store, Some(userId));
    assert first == NotesData([Category(categoryId, "", [])]);
    assert IsFirstCategory(first.categories, 0, categoryId);
    added := s.AddNote(userId, categoryId, "Groceries", "milk, eggs", noteId);
    all := GetNotesForUser(s.store, Some(userId));
    assert all == AddNoteTo(first, categoryId, Note(noteId, "Groceries", "milk, eggs")).value;
    assert |all.categories| == 1;
    assert all.categories[0] == Category(categoryId, "", [Note(noteId, "Groceries", "milk, eggs")]);
  }

  /** A note's title and body are updated and getNote returns the new ones under the same id. */
  method UpdateThenFetchScenario(initial: map<string, NotesData>, userId: string, categoryId: string, noteId: string)
    returns (fetched: Result<Option<Note>>)
    requires userId != "" && UserKey(userId) !in initial
    ensures fetched == Ok(Some(Note(noteId, "T2", "B2")))
  {
    var s := new NotesStore(initial);
    var c := s.AddCategory(userId, "", categoryId);
    var n := s.AddNote(userId, categoryId, "T", "B", noteId);
    var u := s.UpdateNote(Some(userId), categoryId, noteId, "T2", "B2");
    fetched := s.GetNote(Some(userId), noteId);
  }

  /** Deleting a category removes it and its notes: getCategory finds nothing and getNote
      throws 'Note not found' for the note it held. */
  method DeleteCategoryScenario(initial: map<string, NotesData>, userId: string, categoryId: string, noteId: string)
    returns (deleted: Result<()>, category: Option<Category>, note: Result<Option<Note>>)
    requires userId != "" && UserKey(userId) !in initial
    ensures deleted == Ok(())
    ensures category == None
    ensures note == Err(NoteNotFound)
  {
    var s := new NotesStore(initial);
    var c := s.CreateEmptyCategory(Some(userId), categoryId);
    var n := s.CreateEmptyNote(Some(userId), categoryId, noteId);
    deleted := s.DeleteCategory(Some(userId), categoryId);
    category := GetCategory(s.store, Some(userId), categoryId);
    note := s.GetNote(Some(userId), noteId);
  }

  /** For a note id no category holds, getNote throws while deleteNote silently leaves the
      stored documents as they were, and getCategory for an unknown id returns nothing. */
  method MissingIdScenario(initial: map<string, NotesData>, userId: string, noteId: string, categoryId: string)
    returns (fetched: Result<Option<Note>>, category: Option<Category>, before: map<string, NotesData>, after: map<string, NotesData>)
    requires userId != ""
    requires forall j :: 0 <= j < |GetNotesForUser(initial, Some(userId)).categories| ==>
      !HasNote(GetNotesForUser(initial, Some(userId)).categories[j], noteId) &&
      GetNotesForUser(initial, Some(userId)).categories[j].id != categoryId
    ensures fetched == Err(NoteNotFound)
    ensures category == None
    ensures after == before && before == initial
  {
    var s := new NotesStore(initial);
    before := s.store;
    fetched := s.GetNote(Some(userId), noteId);
    category := GetCategory(s.store, Some(userId), categoryId);
    s.DeleteNote(Some(userId), noteId);
    after := s.store;
  }

  /** Renaming a category that does not exist throws 'Category not found' and writes nothing. */
  method UnknownCategoryRenameScenario(initial: map<string, NotesData>, userId: string, categoryId: string)
    returns (r: Result<()>, after: map<string, NotesData>)
    requires userId != ""
    requires forall j :: 0 <= j < |GetNotesForUser(initial, Some(userId)).categories| ==>
      GetNotesForUser(initial, Some(userId)).categories[j].id != categoryId
    ensures r == Err(CategoryNotFound)
    ensures after == initial
  {
    var s := new NotesStore(initial);
    r := s.UpdateCategory(Some(userId), categoryId, "X");
    after := s.store;
  }

  /** addCategory and addNote do not check the user id. With the empty id, the read sees
      the empty document, so addCategory replaces whatever was stored under "notes-" by a
      one-category document that no read for that id ever returns, and addNote always
      throws 'Category not found'. */
  method EmptyUserIdScenario(initial: map<string, NotesData>, name: string, categoryId: string, noteId: string)
    returns (c: Category, stored: NotesData, category: Option<Category>, added: Result<Note>)
    ensures stored == NotesData([c]) && c == Category(categoryId, name, [])
    ensures category == None
    ensures added == Err(CategoryNotFound)
  {
    var s := new NotesStore(initial);
    c := s.AddCategory("", name, categoryId);
    stored := s.store[UserKey("")];
    category := GetCategory(s.store, Some(""), categoryId);
    added := s.AddNote("", categoryId, "", "", noteId);
  }
}
