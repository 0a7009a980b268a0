# Review store — a Dafny model

This project models the review store of a games catalog (`modules/review.js`):
a `review` table of free-text reviews with a rating, each tied to a game and
a user; the field validator `checkReviewFields` that guards writes; and the
three table operations `addReview`, `updateReview` and `getReviewsByGameID`.

Everything lives in one module, `Review` (`review.dfy`):

- Caller inputs are small datatypes. `Text` is absent or a string. `Rating` is
  `undefined`, `null`, non-numeric (what JavaScript's `isNaN` rejects) or a
  number (`real`, never restricted to integers, exactly as the code compares
  only against the bounds 0 and 5). `null` and `undefined` are told apart
  because the INSERT treats them differently. `ReviewData` is the `data`
  argument: `null`/`undefined`, or an object with the two fields. `Ident`
  (a game or review id) is absent, non-numeric or a number.
- Every thrown error is a `Failure` constructor; `Message` gives its text.
  Operations return `Result` values: `Ok(v)` or `Err(failure)`, since each
  operation rethrows what it catches unchanged.
- `CheckReviewFields` is a pure function. The text validator of the
  `validator` module is a parameter `validText: string -> bool` about which
  nothing is assumed.
- `ReviewStore` is a class over the table. It holds the rows (`seq<Row>`),
  the autoincrement counter `nextId`, the set of existing game ids that stands
  for the game catalog's `getGameByID`, and the validator. `Valid()` is the
  table invariant (`TableInvariant`): ids are positive, strictly increasing
  and below `nextId`. Every row has `userID = 1`, `flag = 0`, a NULL rating or
  one in (0, 5], and a text the validator accepts.
- The SQL statements are modelled by their effect. `RecordsWithId` is the
  `COUNT(id)` query. `SetFullText` and `SetRating` are the two `UPDATE`
  statements, applied one after the other. `RowsOfGame` is the
  `SELECT ... WHERE gameID` query, which returns rows in table order.

Behaviour of the code that the model keeps:

- `addReview` ignores its `userID` argument and always stores user 1.
- `addReview` replaces an absent or empty text by `''` before validation.
  Its "All fields are null" branch therefore cannot fire. An absent text fails
  with "Must supply fulltext" unless the validator accepts the empty string.
- `addReview` with a `null` rating passes validation and the game lookup, and
  the INSERT stores a row whose rating is NULL.
- `addReview` with an `undefined` rating also passes validation and the game
  lookup, but the INSERT then receives the literal `undefined` and the storage
  engine rejects it; the model returns `InsertFailed` and leaves the table
  unchanged.
- Both operations read `data.fullText` before any check, so a `null` or
  `undefined` `data` fails with a TypeError before the id is looked at.
- `updateReview` reports "Review not found" before it validates the fields.
- The unit tests call a three-argument `updateReview` and expect
  "Must supply userID" from `addReview`. The code has neither; the model
  follows the code.

## Model

| member | source | states |
|---|---|---|
| `Review.Message` | modules/review.js:51-91 | The text of each thrown error: the module's own messages verbatim, the error name for the TypeError and the storage engine's error. |
| `Review.MessageInjective` | modules/review.js:51-91 | Distinct errors carry distinct messages, so a caller can tell every error apart from its message alone. |
| `Review.CheckReviewFields` | modules/review.js:47-73 | Fails "Must supply fulltext" exactly when a present text fails the validator, before any rating check. Otherwise fails "Must supply rating" exactly when the rating is non-numeric. Otherwise fails "Rating must be 1-5" exactly when the number is outside (0, 5]. Fails "All fields are null" exactly when both fields are absent (`null` and `undefined` alike). Returns true exactly when the text is absent-or-valid, the rating is absent-or-in-range and at least one is present. |
| `Review.RatingBoundaries` | modules/review.js:60-65 | Ratings 0 and 6 are rejected with "Rating must be 1-5"; 5 and the non-integral 0.5 are accepted. |
| `Review.AddNeverAllFieldsNull` | modules/review.js:132-140 | Validation inside addReview, on the text defaulted to `''`, never yields "All fields are null". An absent text fails with "Must supply fulltext" whenever the validator rejects `''`. |
| `Review.RecordsWithId` | modules/review.js:88-92 | The count of rows with an id is zero exactly when no row has that id, and at most one over a table whose ids increase. |
| `Review.RowsOfGame` | modules/review.js:176-180 | The selected rows are exactly the table rows of that game: each listed row is in the table with that gameID, every such table row is listed, and the listing is no longer than the table. |
| `Review.RowsOfGameConcat` | modules/review.js:176-180 | Listing a game over a table split in two gives the first part's rows, then the second's. The filter therefore keeps table order. |
| `Review.RowsOfGameOrdered` | modules/review.js:176-185 | Over a table whose ids increase, the listed ids increase too (rows come back in insertion order). |
| `Review.RowsOfGameAppend` | modules/review.js:145-159 | After a row is inserted, its game's listing is the old listing followed by that row. Every other game's listing is unchanged. |
| `Review.RowsOfGameSameIds` | modules/review.js:97-117 | Tables that agree row by row on id and gameID list the same review ids, in the same order, for every game. |
| `Review.SetFullText` | modules/review.js:99-105 | The text UPDATE keeps the id column and every game's listing of ids. Only the fullText column changes, and only in rows with that id, which get the new text. |
| `Review.SetRating` | modules/review.js:110-116 | The rating UPDATE keeps the id column and every game's listing of ids. Only the rating column changes, and only in rows with that id, which get the new rating. |
| `Review.UpdateStatementsRows` | modules/review.js:97-117 | The two UPDATE statements run in sequence turn exactly the rows with that id into their updated form (supplied columns replaced, the rest kept). Every game still lists the same ids in the same order. |
| `Review.UpdateKeepsInvariant` | modules/review.js:94-117 | Rewriting the rows of one id with fields that passed validation keeps the table invariant: ids still increase and every row stays well formed. |
| `Review.ReviewStore.constructor` | modules/review.js:10-45 | A new store has an empty, valid table with next id 1, using the given validator and game catalog. |
| `Review.ReviewStore.AddReview` | modules/review.js:131-166 | Checks in this order: a `null`/`undefined` `data` gives the TypeError; an absent or NaN gameID gives "Must supply gameID"; then field validation on the defaulted text; then an unknown game gives "Game not found"; then an `undefined` rating makes the INSERT fail. Any failure leaves the table and counter untouched. Success happens exactly when the game exists, the defaulted text is valid and the rating is `null` or numeric in (0, 5]. It then appends one row with userID 1, flag 0 and the rating (NULL for `null`), returns the old counter as an id no existing row has, advances the counter and keeps the invariant. The new row goes to the end of its game's listing; no other game's listing changes. |
| `Review.ReviewStore.UpdateReview` | modules/review.js:77-127 | Checks in this order: a `null`/`undefined` `data` gives the TypeError; an absent or NaN reviewID gives "Must supply reviewID"; then a missing row gives "Review not found", whatever the fields are; then field validation runs. Any failure leaves the table untouched. On success it returns true and only the supplied fullText and/or rating of the row with that id change. gameID, userID, flag, the other rows, the counter and the invariant are kept, and every game lists the same review ids in the same order. |
| `Review.ReviewStore.GetReviewsByGameID` | modules/review.js:168-190 | An absent or NaN gameID gives "Must supply gameID"; an unknown game gives "Game not found". Otherwise the result is `{reviews}` holding exactly that game's rows in table order, copied by the loop. The table is not changed. |

## Left out

- Opening the database, the asynchronous self-construction and the
  `CREATE TABLE` statements (modules/review.js:10-45) are storage I/O. The
  constructor only yields an empty table whose next id is 1.
- The `reviewScreenshot` table: no operation in the file uses it.
- The SQL text itself: quoting, injection through double-quoted values (for
  example a text equal to a column name), and SQLite's type-affinity
  conversion of the quoted rating in the rating UPDATE. Each statement is
  modelled by its intended effect on the table.
- The exact texts of the two errors raised outside the module: the storage
  engine's message for the failed INSERT (`InsertFailed`) and the JavaScript
  engine's TypeError for a missing `data` (`DataNotAnObject`). `Message` gives
  only their names.
- The `validator` module (`check_MultipleWordsOnlyAlphaNumberic`) is not part
  of this model. It is an arbitrary predicate given to the store.
- The `game` module (`getGameByID`) is not part of this model. It is a set of
  game ids the store never changes. Only the "Game not found" outcome of the
  lookup is modelled.
- JavaScript's `isNaN`/`==` coercions are abstracted. A rating or id is
  absent, non-numeric, or already the number it coerces to.
- Review.ReviewStore.AddReview: ids are integers, so a non-integral numeric game id
  (which `isNaN` lets through) is not modelled. The same holds for
  UpdateReview and GetReviewsByGameID.
- `deleteReviewByID`, `publishReview`, `getAverageRating` and the
  three-argument `getReviewsByGameID` appear only in the unit tests and are
  not defined in `modules/review.js`, so they are not modelled. Because no
  modelled operation changes `flag`, the invariant fixes it at 0.
- A `data` argument that is a primitive other than `null`/`undefined` (reading
  a field of it gives `undefined`) is not distinguished from an object whose
  fields are absent.
- `async`/`await` and concurrent callers: each operation is one atomic step.
  A crash between the two UPDATE statements of `updateReview` is not modelled.
