/** The values the notes store keeps: a user's document is an ordered sequence of
    categories, each holding an ordered sequence of notes (app/kv-notes.ts:5-19). */
module NotesTypes {

  datatype Option<T> = None | Some(value: T)

  /** NoteItem */
  datatype Note = Note(id: string, title: string, body: string)

  /** CategoryItem: a category owns its notes by containment. */
  datatype Category = Category(id: string, name: string, notes: seq<Note>)

  /** NotesData: the whole per-user document, read and written as one value. */
  datatype NotesData = NotesData(categories: seq<Category>)

  /** The document returned when nothing is stored: `{ categories: [] }`. */
  const EmptyNotes := NotesData([])

  /** The two errors the store throws: 'Category not found' and 'Note not found'. */
  datatype Error = CategoryNotFound | NoteNotFound

  /** A call either returns a value or throws one of the store's errors. */
  datatype Result<T> = Ok(value: T) | Err(error: Error)
}
