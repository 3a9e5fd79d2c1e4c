# Bookshelf book store, modelled in Dafny

The bookshelf REST service keeps a personal catalog of books in one in-memory
array, `books`, shared by five hapi handlers in `src/handler.js`: add a book,
list all books, fetch one by id, update one by id and delete one by id. This
project models that store and those handlers.

- `js.dfy` (module `Js`) gives the JavaScript semantics the handlers depend on:
  payload values (`undefined`, `null`, integer numbers, strings, booleans),
  truthiness (`!v`, `Boolean(v)`), `toString()`, `String.prototype.trim`
  (WhiteSpace and LineTerminator code points), strict equality `===` and
  `Array.prototype.splice` with its negative-index rule.
- `handler.dfy` (module `Handler`) holds the record types, the response type
  (HTTP status code, body `status`, `message` and `data`, with the handlers'
  Indonesian messages verbatim) and the class `BookStore`, whose `books: seq<Book>`
  field is the shared array. Add, update and delete are methods that reassign
  that field; list and get are read-only functions. `findIndex` is a loop
  proved against the function `IndexOf`; `find` is the function `Find`.
- `wrappers.dfy` holds the `Option` type.

The class invariant `Valid()` says every stored record has `finished` equal to
`pageCount === readPage` and never has both page fields numeric with
`readPage > pageCount`; every handler keeps it.

The model follows the handlers as written, where their comments and messages
and the service's documented behaviour describe something else:

- The list handler takes no query parameters: there is no filtering by name,
  `reading` or `finished`. It returns every record's `{id, name, publisher}`.
- In the update handler the found/not-found test is inverted. When the id
  exists, the record is overwritten and the answer is 404 with the "Id tidak
  ditemukan" message. When the id does not exist, nothing changes and the
  answer is 200.
- In the delete handler the test is inverted as well. When the id exists the
  answer is 404 and nothing is removed. When it does not exist,
  `books.splice(-1, 1)` runs, which removes the LAST record (nothing when the
  store is empty), and the answer is 200.
- No id collision check is made: a new record whose id is already taken is
  appended anyway, and fetching that id keeps returning the older record
  (`FindAfterAppend`).
- `add` stores `reading` exactly as given, while `update` stores
  `Boolean(reading)`.
- Validation (name, then page counts) runs before the id lookup on update, so a
  400 wins over either id outcome.

## Model

| member | source | states |
|---|---|---|
| `Js.Truthy` | src/handler.js:18 | `!v` / `Boolean(v)`: a value is truthy exactly when it is not one of undefined, null, 0, "" or false |
| `Js.StrictEquals` | src/handler.js:44 | `===` on payload values holds exactly when type and value agree |
| `Js.TrimStart` | src/handler.js:18 | the leading part removed by trim is all white space, and what is left is a suffix that does not start with white space |
| `Js.TrimEnd` | src/handler.js:18 | the trailing part removed by trim is all white space, and what is left is a prefix that does not end with white space |
| `Js.TrimBlankIff` | src/handler.js:18 | `s.trim() === ""` exactly when every character of `s` is white space |
| `Js.NatToDecimal` | src/handler.js:18 | a natural number's `toString()` (below 10^21) is a non-empty run of decimal digits with no leading zero, "0" only for 0 |
| `Js.DecimalRoundTrip` | src/handler.js:18 | reading the decimal numeral back yields the number |
| `Js.ToStringBlankIff` | src/handler.js:18 | `v.toString().trim()` is blank only for a string made of white space; a number or boolean never is |
| `Js.SpliceAt` | src/handler.js:195 | `splice(i, 1)` with an index inside the array removes exactly element `i` and shifts the rest down |
| `Js.SpliceMinusOne` | src/handler.js:195 | `splice(-1, 1)` removes the last element, or nothing from an empty array |
| `Handler.NameRejectedIff` | src/handler.js:18-25 | the name test rejects exactly undefined, null, 0, false and strings made only of white space |
| `Handler.IndexOf` | src/handler.js:142 | `findIndex` by id: -1 exactly when no record has the id, else the first index whose record has it |
| `Handler.FindIndex` | src/handler.js:182 | the left-to-right `findIndex` scan returns the index `IndexOf` specifies |
| `Handler.Find` | src/handler.js:85 | `find` by id returns the record at the first matching index, or nothing when no record matches |
| `Handler.Summaries` | src/handler.js:78 | the `map` projection has one `{id, name, publisher}` per record, in the same order |
| `Handler.FindAfterAppend` | src/handler.js:63 | after appending a record, fetching its id returns it, unless an older record with the same id shadows it |
| `Handler.FindAfterReplace` | src/handler.js:148-160 | after update overwrites the found record, fetching that id returns the new record |
| `Handler.BookStore.constructor` | src/handler.js:2 | the shared array starts empty and the store invariant holds |
| `Handler.BookStore.AddBook` | src/handler.js:5-72 | 400 with the name message and no change when the name is falsy or blank; else 400 with the page message and no change when both page fields are numbers and readPage > pageCount; else exactly one record appended with the given id, `finished == (pageCount === readPage)`, `insertedAt == updatedAt == now`, `reading` as given, earlier records untouched, and 201 with the new id; the invariant is kept |
| `Handler.BookStore.GetAllBooks` | src/handler.js:75-80 | always 200, one `{id, name, publisher}` per stored record in store order, no filtering, store unchanged |
| `Handler.BookStore.GetBookById` | src/handler.js:83-101 | 404 with the not-found message when no record has the id, else 200 with the first record that has it, whose `finished` agrees with its page counts (never stale); reads only |
| `Handler.BookStore.UpdateBookById` | src/handler.js:104-177 | the two 400 checks of add first, store unchanged; then an absent id leaves the store unchanged and answers 200; an existing id overwrites only the first matching record (keeping its id and insertedAt, `reading := Boolean(reading)`, recomputed `finished`, `updatedAt := now`) and answers 404; the invariant is kept |
| `Handler.BookStore.DeleteBookById` | src/handler.js:180-202 | an existing id answers 404 and removes nothing; an absent id removes the last record (nothing if the store is empty) and answers 200; the invariant is kept |

## Left out

- `src/routes.js`: route wiring only, with no logic; as written it imports names the handler module does not export and its third route has no handler.
- The hapi request/response plumbing: payload fields and the path id are method parameters, and `h.response(...).code(...)` is the `Response` value.
- `nanoid(16)`: the new id is a parameter; nothing is assumed about its uniqueness, as the handler checks none.
- `new Date().toISOString()`: the timestamp is a parameter.
- JavaScript numbers are integers here: fractions, NaN, -0 and the infinities are not modelled.
- Js.NatToDecimal: integers of magnitude 10^21 and above are written here in full, where JavaScript's `toString` uses exponent form (`"1e+21"`); the name test at src/handler.js:18 only needs the result to be non-blank, which holds in both forms.
- Payload values that are JSON objects or arrays, and a missing or null payload (on which destructuring throws), are not modelled.
- JavaScript strings are UTF-16 code-unit sequences; here they are sequences of Unicode characters.
- The module `./books` that exports the shared array is not part of this model; it is taken to be an empty array.
