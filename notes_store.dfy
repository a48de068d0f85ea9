/** The notes store as the source runs it: every operation reads the user's whole
    document from the key-value store, changes it, and writes the whole document back. */
module NotesStoreClass {
  import opened NotesTypes
  import opened KvNotes

  /** The key-value namespace (`env.NOTES_KV`) together with the operations over it. Each
      call is modelled as atomic; the id `crypto.randomUUID()` would draw is a parameter. */
  class NotesStore {
    /** The documents stored under each key. */
    var store: map<string, NotesData>
    /** The keys written by `put`, oldest first: lets the contracts tell a write of an
        unchanged document from no write at all. */
    ghost var Puts: seq<string>

    constructor (initial: map<string, NotesData>)
      ensures store == initial && Puts == []
    {
      store := initial;
      Puts := [];
    }

    /** `env.NOTES_KV.put(key, JSON.stringify(notes))`: overwrites the whole document. */
    method Put(key: string, notes: NotesData)
      modifies this
      ensures store == old(store)[key := notes]
      ensures Puts == old(Puts) + [key]
    {
      store := store[key := notes];
      Puts := Puts + [key];
    }

    /** createEmptyCategory (app/kv-notes.ts:57-75). */
    method CreateEmptyCategory(userId: Option<string>, freshId: string) returns (r: Option<Category>)
      modifies this
      ensures !Present(userId) ==> r == None && store == old(store) && Puts == old(Puts)
      ensures Present(userId) ==>
        var key := UserKey(userId.value);
        r == Some(Category(freshId, "", [])) &&
        store == old(store)[key := NotesData(GetNotesForUser(old(store), userId).categories + [r.value])] &&
        Puts == old(Puts) + [key]
    {
      if !Present(userId) {
        return None;
      }
      var category := Category(freshId, "", []);
      var key := UserKey(userId.value);
      var notes := GetNotesForUser(store, userId);
      notes := notes.(categories := notes.categories + [category]);
      Put(key, notes);
      return Some(category);
    }

    /** addCategory (app/kv-notes.ts:77-96). The user id is a plain string here and is not
        checked: for "" the read yields the empty document and the write goes to "notes-". */
    method AddCategory(userId: string, name: string, freshId: string) returns (c: Category)
      modifies this
      ensures c == Category(freshId, name, [])
      ensures store == old(store)[UserKey(userId) := NotesData(GetNotesForUser(old(store), Some(userId)).categories + [c])]
      ensures Puts == old(Puts) + [UserKey(userId)]
    {
      var key := UserKey(userId);
      var notes := GetNotesForUser(store, Some(userId));
      c := Category(freshId, name, []);
      notes := notes.(categories := notes.categories + [c]);
      Put(key, notes);
    }

    /** getNote (app/kv-notes.ts:98-114): scans the categories in order and returns the
        first note with the id; throws 'Note not found' when no category holds one. */
    method GetNote(userId: Option<string>, noteId: string) returns (r: Result<Option<Note>>)
      ensures !Present(userId) ==> r == Ok(None)
      ensures Present(userId) ==>
        match FindNote(GetNotesForUser(store, userId).categories, noteId)
        case Some(n) => r == Ok(Some(n))
        case None => r == Err(NoteNotFound)
    {
      if !Present(userId) {
        return Ok(None);
      }
      var notes := GetNotesForUser(store, userId);
      for i := 0 to |notes.categories|
        invariant forall j :: 0 <= j < i ==> !HasNote(notes.categories[j], noteId)
      {
        var category := notes.categories[i];
        var k := NoteIndex(category.notes, noteId);
        if k.Some? {
          return Ok(Some(category.notes[k.value]));
        }
      }
      return Err(NoteNotFound);
    }

    /** createEmptyNote (app/kv-notes.ts:116-138). */
    method CreateEmptyNote(userId: Option<string>, categoryId: string, freshId: string) returns (r: Result<Option<Note>>)
      modifies this
      ensures !Present(userId) ==> r == Ok(None) && store == old(store) && Puts == old(Puts)
      ensures Present(userId) ==>
        var key := UserKey(userId.value);
        match AddNoteTo(GetNotesForUser(old(store), userId), categoryId, Note(freshId, "", ""))
        case Err(e) => r == Err(e) && store == old(store) && Puts == old(Puts)
        case Ok(notes) => r == Ok(Some(Note(freshId, "", ""))) && store == old(store)[key := notes] && Puts == old(Puts) + [key]
    {
      if !Present(userId) {
        return Ok(None);
      }
      var key := UserKey(userId.value);
      var notes := GetNotesForUser(store, userId);
      var i := CategoryIndex(notes.categories, categoryId);
      if i.None? {
        return Err(CategoryNotFound);
      }
      var category := notes.categories[i.value];
      var newNote := Note(freshId, "", "");
      notes := NotesData(notes.categories[i.value := category.(notes := category.notes + [newNote])]);
      Put(key, notes);
      return Ok(Some(newNote));
    }

    /** addNote (app/kv-notes.ts:140-165). The user id is a plain string and is not checked:
        for "" the read yields the empty document, so the call always throws. */
    method AddNote(userId: string, categoryId: string, title: string, body: string, freshId: string)
      returns (r: Result<Note>)
      modifies this
      ensures
        var key := UserKey(userId);
        match AddNoteTo(GetNotesForUser(old(store), Some(userId)), categoryId, Note(freshId, title, body))
        case Err(e) => r == Err(e) && store == old(store) && Puts == old(Puts)
        case Ok(notes) => r == Ok(Note(freshId, title, body)) && store == old(store)[key := notes] && Puts == old(Puts) + [key]
    {
      var key := UserKey(userId);
      var notes := GetNotesForUser(store, Some(userId));
      var i := CategoryIndex(notes.categories, categoryId);
      if i.None? {
        return Err(CategoryNotFound);
      }
      var category := notes.categories[i.value];
      var newNote := Note(freshId, title, body);
      notes := NotesData(notes.categories[i.value := category.(notes := category.notes + [newNote])]);
      Put(key, notes);
      return Ok(newNote);
    }

    /** deleteNote (app/kv-notes.ts:167-187): removes the note from the first category that
        holds it and writes; when no category holds it, neither writes nor throws. */
    method DeleteNote(userId: Option<string>, noteId: string)
      modifies this
      ensures !Present(userId) ==> store == old(store) && Puts == old(Puts)
      ensures Present(userId) ==>
        var key := UserKey(userId.value);
        match DeleteNoteFrom(GetNotesForUser(old(store), userId), noteId)
        case None => store == old(store) && Puts == old(Puts)
        case Some(notes) => store == old(store)[key := notes] && Puts == old(Puts) + [key]
    {
      if !Present(userId) {
        return;
      }
      var key := UserKey(userId.value);
      var notes := GetNotesForUser(store, userId);
      for i := 0 to |notes.categories|
        invariant store == old(store) && Puts == old(Puts)
        invariant forall j :: 0 <= j < i ==> !HasNote(notes.categories[j], noteId)
      {
        var category := notes.categories[i];
        var noteIndex := NoteIndex(category.notes, noteId);
        if noteIndex.Some? {
          var kept := RemoveAt(category.notes, noteIndex.value);
          Put(key, NotesData(notes.categories[i := category.(notes := kept)]));
          return;
        }
      }
    }

    /** deleteCategory (app/kv-notes.ts:189-205). */
    method DeleteCategory(userId: Option<string>, categoryId: string) returns (r: Result<()>)
      modifies this
      ensures !Present(userId) ==> r == Ok(()) && store == old(store) && Puts == old(Puts)
      ensures Present(userId) ==>
        var key := UserKey(userId.value);
        match DeleteCategoryFrom(GetNotesForUser(old(store), userId), categoryId)
        case Err(e) => r == Err(e) && store == old(store) && Puts == old(Puts)
        case Ok(notes) => r == Ok(()) && store == old(store)[key := notes] && Puts == old(Puts) + [key]
    {
      if !Present(userId) {
        return Ok(());
      }
      var key := UserKey(userId.value);
      var notes := GetNotesForUser(store, userId);
      var categoryIndex := CategoryIndex(notes.categories, categoryId);
      if categoryIndex.None? {
        return Err(CategoryNotFound);
      }
      Put(key, NotesData(RemoveAt(notes.categories, categoryIndex.value)));
      return Ok(());
    }

    /** updateNote (app/kv-notes.ts:207-232): both lookups happen before the write, so a
        failure leaves the store as it was. */
    method UpdateNote(userId: Option<string>, categoryId: string, noteId: string, title: string, body: string)
      returns (r: Result<()>)
      modifies this
      ensures !Present(userId) ==> r == Ok(()) && store == old(store) && Puts == old(Puts)
      ensures Present(userId) ==>
        var key := UserKey(userId.value);
        match UpdateNoteIn(GetNotesForUser(old(store), userId), categoryId, noteId, title, body)
        case Err(e) => r == Err(e) && store == old(store) && Puts == old(Puts)
        case Ok(notes) => r == Ok(()) && store == old(store)[key := notes] && Puts == old(Puts) + [key]
    {
      if !Present(userId) {
        return Ok(());
      }
      var key := UserKey(userId.value);
      var notes := GetNotesForUser(store, userId);
      var i := CategoryIndex(notes.categories, categoryId);
      if i.None? {
        return Err(CategoryNotFound);
      }
      var category := notes.categories[i.value];
      var k := NoteIndex(category.notes, noteId);
      if k.None? {
        return Err(NoteNotFound);
      }
      var note := category.notes[k.value];
      note := note.(title := title, body := body);
      category := category.(notes := category.notes[k.value := note]);
      Put(key, NotesData(notes.categories[i.value := category]));
      return Ok(());
    }

    /** updateCategory (app/kv-notes.ts:234-252). */
    method UpdateCategory(userId: Option<string>, categoryId: string, name: string) returns (r: Result<()>)
      modifies this
      ensures !Present(userId) ==> r == Ok(()) && store == old(store) && Puts == old(Puts)
      ensures Present(userId) ==>
        var key := UserKey(userId.value);
        match RenameCategoryIn(GetNotesForUser(old(store), userId), categoryId, name)
        case Err(e) => r == Err(e) && store == old(store) && Puts == old(Puts)
        case Ok(notes) => r == Ok(()) && store == old(store)[key := notes] && Puts == old(Puts) + [key]
    {
      if !Present(userId) {
        return Ok(());
      }
      var key := UserKey(userId.value);
      var notes := GetNotesForUser(store, userId);
      var i := CategoryIndex(notes.categories, categoryId);
      if i.None? {
        return Err(CategoryNotFound);
      }
      var category := notes.categories[i.value];
      Put(key, NotesData(notes.categories[i.value := category.(name := name)]));
      return Ok(());
    }
  }
}
