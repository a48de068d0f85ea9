# Notes store model

A Dafny model of the notes store of a small multi-user notes application
(`app/kv-notes.ts`). Each user's categories and notes live in one document, stored
under the key `"notes-" + userId` in a key-value namespace. Every operation that writes
does the same thing:

1. it reads the whole document (`getNotesForUser`);
2. it scans the document linearly;
3. it changes the loaded copy;
4. it writes the whole document back with `put`.

The three lookups, `getNotesForUser`, `getCategory` and `getNote`, only read and scan.
The guard paths and the throw paths of the writing operations do not write either.

The model has five modules:

- `NotesTypes` (`types.dfy`): the values. A `Note` has an id, a title and a body. A
  `Category` has an id, a name and a sequence of notes. `NotesData` is the user's
  document, a sequence of categories. `Error` names the two thrown errors, and
  `Result<T>` is a return value or one of those errors.
- `KvNotes` (`kv_notes.dfy`): the pure part of the store.
  - `UserKey` derives the storage key.
  - `Present` is the source's `!userId` test, negated. `undefined` and `""` both count
    as absent.
  - `GetNotesForUser` and `GetCategory` are the read-only lookups.
  - `CategoryIndex`, `NoteIndex` and `NoteHolder` are the first-match scans (`find`,
    `findIndex`, and the `for` loops).
  - `AddNoteTo`, `DeleteNoteFrom`, `DeleteCategoryFrom`, `UpdateNoteIn` and
    `RenameCategoryIn` give the document each mutating operation writes back, as a
    function of the document it read. Each one's contract states which category or note
    is the first match, what changes and what stays the same.
- `NotesStoreClass` (`notes_store.dfy`): class `NotesStore`. Its field `store` maps keys
  to documents, and it has one method per exported function that writes or throws. The
  read-only `getNotesForUser` and `getCategory` are the functions `GetNotesForUser` and
  `GetCategory` in `KvNotes`.
  - The methods follow the source step by step: the guard, the read, the lookup, the
    throw, the change and the `put`. `getNote` and `deleteNote` keep their `for` loops.
  - Each method's contract states the new `store` and the result in terms of the pure
    functions above.
  - A ghost log `Puts` records every key written. The contracts can therefore say *no
    write happens*, which is stronger than "the store is unchanged".
- `NotesProperties` (`properties.dfy`): lemmas that relate operations to each other.
  - Keys are injective, and a write is read back by its own user only.
  - A created category or note is what a later lookup finds, provided its id is new to
    the document. An updated note keeps its
    id and carries the new title and body. `getNote` then finds the updated note when no
    category before the first one with that category id holds the note id. When
    an earlier category does hold it, `getNote` keeps returning what it returned before
    the update (`NotesProperties.UpdateShadowedByEarlierHolder`).
  - A deleted category is gone when no later category shares its id. Its notes are gone
    when no other category holds their ids.
  - Each operation changes the total note count by the amount it should: creating a
    category adds none, adding a note adds one, deleting a note removes one, deleting a
    category removes its notes, and the updates keep the count.
- `NotesScenarios` (`scenarios.dfy`): client methods that run call sequences on a
  `NotesStore`. Their results follow from the method contracts alone.

The id that `crypto.randomUUID()` would draw is a parameter (`freshId`). The source never
checks it against existing ids, so the model does not either.
`NotesProperties.CreatedCategoryLookup` states what a duplicate id does: the older
category keeps shadowing the new one.

Some operations skip the user-id guard the others have, and the operations that return
nothing never report an absent user. The model follows the code:

- `addCategory` and `addNote` take a plain `string` user id and have no `!userId` guard.
  With the empty id, the read still yields the empty document, because `getNotesForUser`
  has the guard. So `addCategory("")` overwrites whatever is stored under `"notes-"`
  with a one-category document that no read ever returns. `addNote("")` always throws
  `Category not found`. See `NotesScenarios.EmptyUserIdScenario`.
- When the user is absent, `deleteCategory`, `updateNote` and `updateCategory` return
  without an error, even for an unknown id.
- `getNote` returns nothing for an absent user, and throws `Note not found` for a
  present user whose document has no such note.

## Model

| member | source | states |
|---|---|---|
| `NotesProperties.UserKeySplits` | app/kv-notes.ts:21-23 | the key is the prefix `notes-` followed by exactly the user id |
| `NotesProperties.UserKeyInjective` | app/kv-notes.ts:21-23 | two user ids give the same key if and only if they are equal |
| `NotesProperties.NeverWrittenIsEmpty` | app/kv-notes.ts:32-40 | an absent or empty user id, or a key with nothing stored, reads as `{categories: []}` |
| `NotesProperties.ReadAfterWrite` | app/kv-notes.ts:36-40 | for a present user, the document put under the user's key is exactly what `getNotesForUser` returns |
| `NotesProperties.WriteIsolatesUsers` | app/kv-notes.ts:21-40 | a put under one user's key leaves what every other user id reads unchanged |
| `KvNotes.CategoryIndex` | app/kv-notes.ts:201 | the index of the first category with the id, or none exactly when no category has it |
| `KvNotes.NoteIndex` | app/kv-notes.ts:180 | the index of the first note with the id, or none exactly when no note has it |
| `KvNotes.NoteHolder` | app/kv-notes.ts:179-181 | the first category, in document order, that holds a note with the id, or none exactly when no category holds one |
| `KvNotes.GetCategory` | app/kv-notes.ts:43-55 | returns the first category with the id; returns nothing exactly when the user is absent or no category has the id |
| `KvNotes.FindNote` | app/kv-notes.ts:109-112 | the first note with the id in the first category holding one; nothing exactly when no category holds it |
| `KvNotes.RemoveAt` | app/kv-notes.ts:182 | `splice(k, 1)`: one element shorter, with the elements before `k` kept and those after it shifted down by one |
| `KvNotes.AddNoteTo` | app/kv-notes.ts:128-135 | `Category not found` exactly when no category has the id; otherwise only the first matching category changes, keeping its id and name, and its notes gain the new note at the end |
| `KvNotes.DeleteNoteFrom` | app/kv-notes.ts:179-186 | nothing to write exactly when no category holds the note; otherwise only the first holder changes, keeping its id and name, and loses only its first note with that id |
| `KvNotes.DeleteCategoryFrom` | app/kv-notes.ts:201-203 | `Category not found` exactly when no category has the id; otherwise the first matching category is removed with its notes and the others keep their order |
| `KvNotes.UpdateNoteIn` | app/kv-notes.ts:225-230 | `Category not found` exactly when no category has the id; `Note not found` exactly when the first matching category does not hold the note; otherwise only that note changes, to the same id with the new title and body |
| `KvNotes.RenameCategoryIn` | app/kv-notes.ts:248-250 | `Category not found` exactly when no category has the id; otherwise only the first matching category's name changes, and its id and notes are kept |
| `NotesStoreClass.NotesStore.Put` | app/kv-notes.ts:73 | the whole document replaces what was stored under the key, and the write is logged |
| `NotesStoreClass.NotesStore.CreateEmptyCategory` | app/kv-notes.ts:57-75 | an absent user gets nothing and no write; otherwise the category `{freshId, "", []}` is appended after the existing categories, written, and returned |
| `NotesStoreClass.NotesStore.AddCategory` | app/kv-notes.ts:77-96 | the category `{freshId, name, []}` is appended after the existing categories, written under the user's key, and returned, with no check of the user id |
| `NotesStoreClass.NotesStore.GetNote` | app/kv-notes.ts:98-114 | an absent user gets nothing; otherwise the loop returns the note `FindNote` picks, or throws `Note not found` when no category holds it |
| `NotesStoreClass.NotesStore.CreateEmptyNote` | app/kv-notes.ts:116-138 | an absent user gets nothing and no write; a missing category throws with no write; otherwise the document `AddNoteTo` gives is written and the empty note is returned |
| `NotesStoreClass.NotesStore.AddNote` | app/kv-notes.ts:140-165 | a missing category throws with no write; otherwise the document `AddNoteTo` gives is written and the new note is returned |
| `NotesStoreClass.NotesStore.DeleteNote` | app/kv-notes.ts:167-187 | an absent user, or a note no category holds, means no write and no error; otherwise the loop writes the document `DeleteNoteFrom` gives |
| `NotesStoreClass.NotesStore.DeleteCategory` | app/kv-notes.ts:189-205 | an absent user means no write; a missing category throws with no write; otherwise the document `DeleteCategoryFrom` gives is written |
| `NotesStoreClass.NotesStore.UpdateNote` | app/kv-notes.ts:207-232 | an absent user means no write; either error is thrown before any write; otherwise the document `UpdateNoteIn` gives is written |
| `NotesStoreClass.NotesStore.UpdateCategory` | app/kv-notes.ts:234-252 | an absent user means no write; a missing category throws with no write; otherwise the document `RenameCategoryIn` gives is written |
| `NotesProperties.CreatedCategoryLookup` | app/kv-notes.ts:64-74 | after a category is appended, looking up its id finds it, unless an older category already had that id, which then still wins |
| `NotesProperties.AddedNoteIsFound` | app/kv-notes.ts:153-164 | a note added under an existing category, with an id new to the document, is what `getNote` then finds |
| `NotesProperties.UpdatedNoteIsFound` | app/kv-notes.ts:222-232 | when the first category with that category id holds the note id and no category before it does, the update succeeds and `getNote` then finds the note with its id unchanged and the new title and body |
| `NotesProperties.UpdateShadowedByEarlierHolder` | app/kv-notes.ts:109-111 | for every document where a category before the first one with that category id holds the note id, a successful update leaves what `getNote` returns unchanged |
| `NotesProperties.DeletedCategoryIsGone` | app/kv-notes.ts:198-205 | when no category after the first one with the id shares it, no category with the deleted id is left |
| `NotesProperties.DeletedCategoryTakesItsNotes` | app/kv-notes.ts:198-205 | a note is no longer found when the only category holding its id was the removed one, the first with the deleted id |
| `NotesProperties.NoteCountChangedAt` | app/kv-notes.ts:135 | replacing one category changes the total note count by the difference in its notes |
| `NotesProperties.NoteCountRemoveAt` | app/kv-notes.ts:203 | removing one category removes exactly its notes from the total |
| `NotesProperties.NoteCountAppend` | app/kv-notes.ts:72 | appending a category adds exactly its notes to the total note count |
| `NotesProperties.CreateCategoryKeepsNoteCount` | app/kv-notes.ts:64-74 | creating a category, empty or named, leaves the total note count unchanged |
| `NotesProperties.AddNoteCountsOneMore` | app/kv-notes.ts:162 | adding a note raises the total note count by exactly one |
| `NotesProperties.DeleteNoteCountsOneLess` | app/kv-notes.ts:182 | deleting a note lowers the total note count by exactly one |
| `NotesProperties.DeleteCategoryDropsItsNotes` | app/kv-notes.ts:203 | deleting a category lowers the total by exactly that category's note count |
| `NotesProperties.UpdatesKeepNoteCount` | app/kv-notes.ts:229-250 | updating a note or renaming a category keeps the total note count |
| `NotesScenarios.GroceriesScenario` | app/kv-notes.ts:57-165 | for a new user, creating a category and then a note in it leaves exactly one category holding exactly that note |
| `NotesScenarios.UpdateThenFetchScenario` | app/kv-notes.ts:207-232 | after an update, `getNote` returns the same id with the new title and body |
| `NotesScenarios.DeleteCategoryScenario` | app/kv-notes.ts:189-205 | after the category is deleted, `getCategory` finds nothing and `getNote` throws `Note not found` for its note |
| `NotesScenarios.MissingIdScenario` | app/kv-notes.ts:107-187 | for an unknown note id, `getNote` throws, while `deleteNote` neither throws nor changes the store; an unknown category id gives nothing |
| `NotesScenarios.UnknownCategoryRenameScenario` | app/kv-notes.ts:245-252 | renaming an unknown category throws `Category not found` and leaves the store unchanged |
| `NotesScenarios.EmptyUserIdScenario` | app/kv-notes.ts:77-165 | with the user id `""`, `addCategory` writes a one-category document under `notes-` that `getCategory` never returns, and `addNote` throws `Category not found` |

## Left out

- JSON serialization (`JSON.stringify`, `get(..., {type: 'json'})`): the store holds
  structured documents. A stored JSON `null` therefore has no counterpart. It would read
  as the empty document, like an absent key.
- The key-value namespace API and `async`/`await`: each operation is one atomic step on
  `store`.
- Lost updates between concurrent requests for the same user: calls are sequential, so
  the race, where the last `put` wins, is not modelled.
- `crypto.randomUUID()`: the new id is a parameter. Nothing assumes it is fresh, and the
  lemmas that need a fresh id say so in their preconditions.
- Aliasing of the loaded document: `get` returns a fresh copy, so mutating it in place is
  modelled as building a new document value.
- Session cookies (`app/sessions.ts`), routing and HTTP status mapping
  (`app/routes/*.tsx`), and page rendering (`app/root.tsx`,
  `app/components/NotePreview.tsx`): presentation and framework code outside the store.
