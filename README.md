# Bookshelf API — a Dafny model of the request handlers

The Bookshelf API is a small HTTP service that keeps book records in one
process-local, ordered list. Its five handlers create a book, list the
books, fetch one book by id, update one book and delete one book. This
project models that list and those handlers and proves what each handler
does to the list and what it answers.

- `records.dfy`, module `BookRecords`: the book record, the request payload,
  the `{id, name, publisher}` summary, the two record builders (the record a
  create request builds, the record an update leaves behind) and the
  queries the handlers run over the list: `findIndex` by id (`IndexOf`),
  `filter` by id (`WithId`), `map` to summaries (`Summaries`) and
  `splice(i, 1)` (`RemoveAt`), with lemmas about them.
- `handler.dfy`, module `Handler`: the response envelope (HTTP code, status
  `success`/`fail`/`error`, message kind, data) and the class `Bookshelf`,
  whose field `books: seq<Book>` is the shared list. The three handlers that
  change the list in place (`push`, index assignment, `splice`) are the
  methods `Add`, `Edit` and `Delete`; the two that only read it are the
  functions `GetSpecific` and `GetAll` of the list's contents
  (`GetSpecific(shelf.books, id)`). Lemmas relate successive requests.

Modelling choices:

- The generated id and the current time are parameters of `Add` and `Edit`.
  Time stamps are uninspected strings.
- The request body of `Add` and `Edit` is `Option<Payload>`: `None` stands for
  an absent or null body, whose destructuring throws a TypeError before any
  check runs; both methods then return `Threw(TypeError)` and leave the list
  unchanged.
- `name` is `Option<string>`; it counts as present when it is `Some` and not
  the empty string, which is what `!name` decides for a string.
- `pageCount`, `readPage` and `year` are unbounded integers; the other fields
  are strings and booleans.
- A success response that the handler returns as a plain object carries the
  framework's default code 200 (get-one and delete).
- The response message is its kind (`NameRequired`, `NotFound`, ...), not its
  Indonesian text.
- The list handler with a `name`, `reading` or `finished` query key present
  does not answer: each of those branches declares a block-local
  `const books = books.filter(...)`, whose initializer reads the binding it is
  declaring, so it throws a ReferenceError. `GetAll` returns
  `Threw(ReferenceError)` for those requests and a response for all others.

Behaviour the model takes from the code as written:

- No list request with a `name`, `reading` or `finished` key gets an answer
  (above); there are no working name, reading or finished filters.
- The update handler keeps the stored `finished` and does not recompute it,
  so after an update `finished` can disagree with `readPage == pageCount`
  (`Revised`, `EditThenGet`).
- The create handler appends without looking at the ids already stored, so
  ids are unique only as far as the generator makes them so; get-one, update
  and delete act on the first book with an id (`IndexOf`, `WithIdFirst`).
- `readPage <= pageCount` holds for every stored book as long as it held for
  the list the service started with; each changing handler preserves it
  (`PagesConsistent` in the `ensures` of `Add`, `Edit` and `Delete`).

## Model

| member | source | states |
|---|---|---|
| `BookRecords.NewBook` | src/handler.js:8-28 | the created record has the given id and the payload's fields, `insertedAt == updatedAt == now`, and `finished` exactly when `readPage == pageCount` |
| `BookRecords.Revised` | src/handler.js:197-208 | an updated record keeps `id`, `insertedAt` and `finished`, takes every payload field, and its `updatedAt` is the new time |
| `BookRecords.IndexOf` | src/handler.js:173 | findIndex: -1 exactly when no book has the id; otherwise a position holding the id with no earlier position holding it |
| `BookRecords.WithId` | src/handler.js:148 | filter by id never yields more books than the list holds |
| `BookRecords.WithIdMembers` | src/handler.js:49 | a book is in the id filter exactly when it is in the list and has the id |
| `BookRecords.WithIdFirst` | src/handler.js:148-150 | the id filter is empty exactly when findIndex gives -1, and otherwise its first element is the book at the findIndex position |
| `BookRecords.Summaries` | src/handler.js:134-138 | one summary per stored book, in store order, each carrying that book's id, name and publisher |
| `BookRecords.RemoveAt` | src/handler.js:228 | splice removes one element: the length drops by one, earlier books stay in place, later books move down by one |
| `BookRecords.RemoveAtPermutation` | src/handler.js:228 | splice loses exactly the book at the spliced position: the rest plus that book is the old list as a multiset |
| `BookRecords.WithIdConcat` | src/handler.js:217-232 | helper for the delete path: filtering by id distributes over concatenation of lists |
| `BookRecords.WithIdSplit` | src/handler.js:217-232 | helper for the delete path: when no book before `x` has the id and `x` has it, the filter of `before + [x] + after` is `x` followed by the filter of `before + after` |
| `BookRecords.WithIdAfterRemove` | src/handler.js:219-228 | the id filter of the list is the book delete removes followed by the id filter of the list delete leaves |
| `BookRecords.NoMatchBefore` | src/handler.js:217-232 | helper for the delete path: no book before the findIndex position has the id |
| `Handler.Bookshelf.constructor` | src/handler.js:1 | the shelf starts with the given list |
| `Handler.Bookshelf.Add` | src/handler.js:4-67 | an absent or null body throws a TypeError and leaves the list unchanged; otherwise a missing name gives 400/fail even when the pages are wrong; with a name, `readPage > pageCount` gives 400/fail; both leave the list unchanged; otherwise the new record is appended after the unchanged old list and the answer is 201/success with the new id; never 500; keeps `readPage <= pageCount` for every book |
| `Handler.Bookshelf.Edit` | src/handler.js:166-214 | an absent or null body throws a TypeError and leaves the list unchanged; otherwise a missing name gives 400/fail even for an unknown id; then an unknown id gives 404/fail; then `readPage > pageCount` gives 400/fail; all leave the list unchanged; otherwise only the first book with the id is replaced by its revision, the length is unchanged, every other position is unchanged, and the answer is 200/success; keeps `readPage <= pageCount` for every book |
| `Handler.Bookshelf.Delete` | src/handler.js:217-232 | an unknown id gives 404/fail and leaves the list unchanged; otherwise the first book with the id is spliced out and the answer is 200/success; keeps `readPage <= pageCount` for every book |
| `Handler.GetSpecific` | src/handler.js:145-164 | an unknown id gives 404/fail; otherwise 200/success carrying the first stored book with that id |
| `Handler.GetAll` | src/handler.js:70-143 | a request carrying `name`, `reading` or `finished` throws a ReferenceError; every other request returns 200/success with exactly one `{id, name, publisher}` entry per stored book, in store order |
| `Handler.AddThenGet` | src/handler.js:48-49 | after a create under an id no stored book has, get-one for that id answers 200 with the new record, whose fields are the payload's and whose `finished` says whether `readPage == pageCount` |
| `Handler.DeleteThenGet` | src/handler.js:228 | deleting the only book with an id makes get-one for that id answer 404 |
| `Handler.EditThenGet` | src/handler.js:197-214 | after a successful update, get-one for that id answers 200 with a record that kept its id, `insertedAt` and `finished` and took the payload's fields and the new `updatedAt` |
| `Handler.AddThenList` | src/handler.js:131-142 | after a successful create, the unfiltered list is the old list's summaries followed by the new book's id, name and publisher |

## Left out

- The filtered branches of the list handler are not modelled as filters: they
  throw before producing a response (see above), so their filter conditions
  never run.
- How the web framework turns a thrown ReferenceError or TypeError into an
  HTTP reply is not modelled; `GetAll`, `Add` and `Edit` stop at the throw.
- Handler.Bookshelf.Add: a present body is taken to be an object carrying
  every field in the model's types; a body that lacks `year`, `author`,
  `summary`, `publisher` or `reading` (stored as `undefined` by the source)
  or carries values of other types is not modelled.
- Handler.Bookshelf.Edit: the same holds for the update body; missing or
  mistyped fields other than the name are not modelled.
- Generating the id (`nanoid(16)`) and reading the clock are left to the
  caller; id freshness is not claimed because the code does not check it.
- Route dispatch (src/routes.js) is a fixed table with no logic of its own.
- The `./books` module is not part of this model; the shelf's constructor
  takes whatever list the service starts with.
- JavaScript coercions are not modelled: `!name` for non-string values
  (0, false, null), and `readPage > pageCount` or `pageCount === readPage`
  on values that are not integers or are undefined.
- Message texts are reduced to their kind.
