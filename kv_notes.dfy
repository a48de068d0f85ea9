/** The pure part of the notes store: the storage key, the read-only lookups, and the
    document each mutating operation writes back, as functions of the document it read. */
module KvNotes {
  import opened NotesTypes

  /** Every user's document is stored under this prefix followed by the user id. */
  const KeyPrefix: string := "notes-"

  /** getUserKVKey (app/kv-notes.ts:21-23). */
  function UserKey(userId: string): string
  {
    KeyPrefix + userId
  }

  /** The negation of the source's `!userId` test: `undefined` and the empty string both
      count as an absent user. */
  predicate Present(userId: Option<string>)
  {
    userId.Some? && userId.value != ""
  }

  /** getNotesForUser (app/kv-notes.ts:25-41): the stored document, or the empty document
      when the user is absent or nothing is stored under the user's key. It only reads. */
  function GetNotesForUser(store: map<string, NotesData>, userId: Option<string>): NotesData
  {
    if !Present(userId) then EmptyNotes
    else if UserKey(userId.value) in store then store[UserKey(userId.value)]
    else EmptyNotes
  }

  // ---------------------------------------------------------------------------
  // First-match predicates: `find` and `findIndex` stop at the first element whose id
  // matches, so every lookup below is specified by "the first index with this id".

  ghost predicate IsFirstCategory(cats: seq<Category>, i: int, id: string)
  {
    0 <= i < |cats| && cats[i].id == id &&
    forall j :: 0 <= j < i ==> cats[j].id != id
  }

  ghost predicate IsFirstNote(notes: seq<Note>, k: int, id: string)
  {
    0 <= k < |notes| && notes[k].id == id &&
    forall j :: 0 <= j < k ==> notes[j].id != id
  }

  /** Category `c` contains a note with id `id`. */
  ghost predicate HasNote(c: Category, id: string)
  {
    exists k :: 0 <= k < |c.notes| && c.notes[k].id == id
  }

  /** Category `i` is the first one, in document order, that contains a note `id`. */
  ghost predicate IsFirstHolder(cats: seq<Category>, i: int, id: string)
  {
    0 <= i < |cats| && HasNote(cats[i], id) &&
    forall j :: 0 <= j < i ==> !HasNote(cats[j], id)
  }

  /** `after` is `before` with the element at index `i` replaced by `x` and nothing else changed. */
  ghost predicate OnlyChangedAt<T>(before: seq<T>, after: seq<T>, i: int, x: T)
  {
    0 <= i < |before| && |after| == |before| && after[i] == x &&
    forall j :: 0 <= j < |before| && j != i ==> after[j] == before[j]
  }

  // ---------------------------------------------------------------------------
  // Lookups

  /** `categories.findIndex(c => c.id === id)`, with -1 as None. */
  function CategoryIndex(cats: seq<Category>, id: string): (r: Option<nat>)
    ensures r.Some? ==> IsFirstCategory(cats, r.value, id)
    ensures r.None? <==> forall j :: 0 <= j < |cats| ==> cats[j].id != id
  {
    if |cats| == 0 then None
    else if cats[0].id == id then Some(0)
    else
      match CategoryIndex(cats[1..], id)
      case None => None
      case Some(k) => Some(k + 1)
  }

  /** `notes.findIndex(n => n.id === id)`, with -1 as None. */
  function NoteIndex(notes: seq<Note>, id: string): (r: Option<nat>)
    ensures r.Some? ==> IsFirstNote(notes, r.value, id)
    ensures r.None? <==> forall j :: 0 <= j < |notes| ==> notes[j].id != id
  {
    if |notes| == 0 then None
    else if notes[0].id == id then Some(0)
    else
      match NoteIndex(notes[1..], id)
      case None => None
      case Some(k) => Some(k + 1)
  }

  /** Index of the first category that contains a note `id`: where the `for` loops of
      getNote and deleteNote stop. */
  function NoteHolder(cats: seq<Category>, id: string): (r: Option<nat>)
    ensures r.Some? ==> IsFirstHolder(cats, r.value, id)
    ensures r.None? <==> forall j :: 0 <= j < |cats| ==> !HasNote(cats[j], id)
  {
    if |cats| == 0 then None
    else if NoteIndex(cats[0].notes, id).Some? then Some(0)
    else
      match NoteHolder(cats[1..], id)
      case None => None
      case Some(k) => Some(k + 1)
  }

  /** getCategory (app/kv-notes.ts:43-55): the first category of the user's document with
      the given id; nothing when the user is absent or no category has that id. */
  function GetCategory(store: map<string, NotesData>, userId: Option<string>, categoryId: string)
    : (r: Option<Category>)
    ensures r.None? <==>
      !Present(userId) ||
      forall j :: 0 <= j < |GetNotesForUser(store, userId).categories| ==>
        GetNotesForUser(store, userId).categories[j].id != categoryId
    ensures forall i :: Present(userId) && IsFirstCategory(GetNotesForUser(store, userId).categories, i, categoryId) ==>
      r == Some(GetNotesForUser(store, userId).categories[i])
  {
    if !Present(userId) then None
    else
      var cats := GetNotesForUser(store, userId).categories;
      match CategoryIndex(cats, categoryId)
      case None => None
      case Some(i) => Some(cats[i])
  }

  /** The note getNote returns when it finds one (app/kv-notes.ts:109-112): the first note
      with id `noteId` in the first category that contains one. */
  function FindNote(cats: seq<Category>, noteId: string): (r: Option<Note>)
    ensures r.None? <==> forall i :: 0 <= i < |cats| ==> !HasNote(cats[i], noteId)
    ensures forall i, k :: IsFirstHolder(cats, i, noteId) && IsFirstNote(cats[i].notes, k, noteId) ==>
      r == Some(cats[i].notes[k])
  {
    match NoteHolder(cats, noteId)
    case None => None
    case Some(i) =>
      var k := NoteIndex(cats[i].notes, noteId);
      if k.Some? then Some(cats[i].notes[k.value]) else assert false; None
  }

  // ---------------------------------------------------------------------------
  // The document each mutating operation writes back

  /** `splice(k, 1)`: the sequence without its element at index `k`. */
  function RemoveAt<T>(s: seq<T>, k: nat): (r: seq<T>)
    requires k < |s|
    ensures |r| == |s| - 1
    ensures forall j :: 0 <= j < k ==> r[j] == s[j]
    ensures forall j :: k <= j < |r| ==> r[j] == s[j + 1]
  {
    s[..k] + s[k + 1..]
  }

  /** createEmptyNote / addNote after the read (app/kv-notes.ts:128-135, 155-162): the
      new note is pushed onto the notes of the first category with id `categoryId`. */
  function AddNoteTo(doc: NotesData, categoryId: string, n: Note): (r: Result<NotesData>)
    ensures r.Err? <==> forall j :: 0 <= j < |doc.categories| ==> doc.categories[j].id != categoryId
    ensures r.Err? ==> r.error == CategoryNotFound
    ensures forall i :: IsFirstCategory(doc.categories, i, categoryId) ==>
      var c := doc.categories[i];
      r.Ok? && OnlyChangedAt(doc.categories, r.value.categories, i, Category(c.id, c.name, c.notes + [n]))
  {
    match CategoryIndex(doc.categories, categoryId)
    case None => Err(CategoryNotFound)
    case Some(i) =>
      var c := doc.categories[i];
      Ok(NotesData(doc.categories[i := c.(notes := c.notes + [n])]))
  }

  /** deleteNote after the read (app/kv-notes.ts:179-186): the first note `noteId` of the
      first category holding one is spliced out; None when no category holds it, in
      which case nothing is written. */
  function DeleteNoteFrom(doc: NotesData, noteId: string): (r: Option<NotesData>)
    ensures r.None? <==> forall j :: 0 <= j < |doc.categories| ==> !HasNote(doc.categories[j], noteId)
    ensures forall i, k :: IsFirstHolder(doc.categories, i, noteId) && IsFirstNote(doc.categories[i].notes, k, noteId) ==>
      var c := doc.categories[i];
      r.Some? && OnlyChangedAt(doc.categories, r.value.categories, i, Category(c.id, c.name, RemoveAt(c.notes, k)))
  {
    match NoteHolder(doc.categories, noteId)
    case None => None
    case Some(i) =>
      var c := doc.categories[i];
      var k := NoteIndex(c.notes, noteId);
      if k.Some? then Some(NotesData(doc.categories[i := c.(notes := RemoveAt(c.notes, k.value))]))
      else assert false; None
  }

  /** deleteCategory after the read (app/kv-notes.ts:201-203): the first category with id
      `categoryId` is spliced out, and its notes with it. */
  function DeleteCategoryFrom(doc: NotesData, categoryId: string): (r: Result<NotesData>)
    ensures r.Err? <==> forall j :: 0 <= j < |doc.categories| ==> doc.categories[j].id != categoryId
    ensures r.Err? ==> r.error == CategoryNotFound
    ensures forall i :: IsFirstCategory(doc.categories, i, categoryId) ==>
      r == Ok(NotesData(RemoveAt(doc.categories, i)))
  {
    match CategoryIndex(doc.categories, categoryId)
    case None => Err(CategoryNotFound)
    case Some(i) => Ok(NotesData(RemoveAt(doc.categories, i)))
  }

  /** updateNote after the read (app/kv-notes.ts:225-230): the category is looked up first,
      then the note inside that category only; the note's title and body are overwritten. */
  function UpdateNoteIn(doc: NotesData, categoryId: string, noteId: string, title: string, body: string)
    : (r: Result<NotesData>)
    ensures r == Err(CategoryNotFound) <==>
      forall j :: 0 <= j < |doc.categories| ==> doc.categories[j].id != categoryId
    ensures forall i :: IsFirstCategory(doc.categories, i, categoryId) ==>
      (r == Err(NoteNotFound) <==> !HasNote(doc.categories[i], noteId))
    ensures forall i, k :: IsFirstCategory(doc.categories, i, categoryId) && IsFirstNote(doc.categories[i].notes, k, noteId) ==>
      var c := doc.categories[i];
      r.Ok? && |r.value.categories| == |doc.categories| &&
      OnlyChangedAt(doc.categories, r.value.categories, i, Category(c.id, c.name, r.value.categories[i].notes)) &&
      OnlyChangedAt(c.notes, r.value.categories[i].notes, k, Note(noteId, title, body))
  {
    match CategoryIndex(doc.categories, categoryId)
    case None => Err(CategoryNotFound)
    case Some(i) =>
      var c := doc.categories[i];
      match NoteIndex(c.notes, noteId)
      case None => Err(NoteNotFound)
      case Some(k) =>
        var n := c.notes[k];
        Ok(NotesData(doc.categories[i := c.(notes := c.notes[k := n.(title := title, body := body)])]))
  }

  /** updateCategory after the read (app/kv-notes.ts:248-250): only the first matching
      category's name changes. */
  function RenameCategoryIn(doc: NotesData, categoryId: string, name: string): (r: Result<NotesData>)
    ensures r.Err? <==> forall j :: 0 <= j < |doc.categories| ==> doc.categories[j].id != categoryId
    ensures r.Err? ==> r.error == CategoryNotFound
    ensures forall i :: IsFirstCategory(doc.categories, i, categoryId) ==>
      var c := doc.categories[i];
      r.Ok? && OnlyChangedAt(doc.categories, r.value.categories, i, Category(c.id, name, c.notes))
  {
    match CategoryIndex(doc.categories, categoryId)
    case None => Err(CategoryNotFound)
    case Some(i) =>
      var c := doc.categories[i];
      Ok(NotesData(doc.categories[i := c.(name := name)]))
  }
}
