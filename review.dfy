/** A model of the review store of a games catalog: a table of reviews
    (free text and a rating, tied to a game and a user), the field
    validator that guards it, and the add, update and list-by-game
    operations over an in-memory table.

    The relational store is replaced by a sequence of rows and an
    autoincrement counter; the game catalog by a set of game ids; the
    text validator by a predicate the store is constructed with. */
module Review {

  datatype Option<T> = None | Some(value: T)

  /** A text field as the caller supplies it: absent (`null` or
      `undefined`, which both operations treat alike) or a string. */
  datatype Text = NoText | Str(s: string)

  /** A rating as the caller supplies it: `undefined`, `null`, a value
      JavaScript's `isNaN` reports as not a number, or the number it
      coerces to. Nothing restricts the number to an integer. */
  datatype Rating = Undefined | Null | NonNumeric | Num(r: real) {
    /** `rating == null` holds of both `null` and `undefined`. */
    predicate Absent() {
      Undefined? || Null?
    }
  }

  /** The `data` argument of addReview and updateReview: `null` or
      `undefined` (reading a field of it throws), or an object with the
      two optional fields. */
  datatype ReviewData = NoData | Data(fullText: Text, rating: Rating)

  /** An identifier argument (game or review id): absent (`null` or
      `undefined`), not a number, or a number. */
  datatype Ident = Missing | NotANumber | Number(n: int)

  /** The errors the operations throw; every one reaches the caller unchanged. */
  datatype Failure =
    | MustSupplyFulltext
    | MustSupplyRating
    | RatingOutOfRange
    | AllFieldsNull
    | MustSupplyGameID
    | MustSupplyReviewID
    | ReviewNotFound
    | GameNotFound     // thrown by the game catalog's lookup
    | DataNotAnObject  // the JavaScript engine's TypeError on reading a field of `data`
    | InsertFailed     // the storage engine rejects an INSERT whose rating is `undefined`

  /** The message of each error: the module's own texts verbatim, and
      the error name for the two errors raised outside the module. */
  function Message(f: Failure): string {
    match f
    case MustSupplyFulltext => "Must supply fulltext"
    case MustSupplyRating => "Must supply rating"
    case RatingOutOfRange => "Rating must be 1-5"
    case AllFieldsNull => "All fields are null"
    case MustSupplyGameID => "Must supply gameID"
    case MustSupplyReviewID => "Must supply reviewID"
    case ReviewNotFound => "Review not found"
    case GameNotFound => "Game not found"
    case DataNotAnObject => "TypeError"
    case InsertFailed => "SQLITE_ERROR"
  }

  /** Distinct errors carry distinct messages, so a caller that sees only
      the message can tell every error apart. */
  lemma MessageInjective(f: Failure, g: Failure)
    ensures Message(f) == Message(g) ==> f == g
  {
  }

  datatype Result<T> = Ok(value: T) | Err(error: Failure)

  // ---------------------------------------------------------------------
  // Field validation
  // ---------------------------------------------------------------------

  /** A text field passes when it is absent or the validator accepts it. */
  predicate TextAcceptable(validText: string -> bool, fullText: Text) {
    fullText.NoText? || validText(fullText.s)
  }

  /** A rating passes when it is absent or a number in the half-open range (0, 5]. */
  predicate RatingAcceptable(rating: Rating) {
    rating.Absent() || (rating.Num? && 0.0 < rating.r <= 5.0)
  }

  /** `checkReviewFields`: the text is checked first, then that the rating
      is numeric, then its range, and last that not both fields are absent. */
  function CheckReviewFields(validText: string -> bool, fullText: Text, rating: Rating): (r: Result<bool>)
    ensures r.Ok? <==>
      TextAcceptable(validText, fullText) && RatingAcceptable(rating)
      && !(fullText.NoText? && rating.Absent())
    ensures r.Ok? ==> r.value
    ensures r == Err(MustSupplyFulltext) <==> !TextAcceptable(validText, fullText)
    ensures r == Err(MustSupplyRating) <==>
      TextAcceptable(validText, fullText) && rating.NonNumeric?
    ensures r == Err(RatingOutOfRange) <==>
      TextAcceptable(validText, fullText) && rating.Num? && !(0.0 < rating.r <= 5.0)
    ensures r == Err(AllFieldsNull) <==> fullText.NoText? && rating.Absent()
  {
    if fullText.Str? && !validText(fullText.s) then
      Err(MustSupplyFulltext)
    else if rating.NonNumeric? then
      Err(MustSupplyRating)
    else if rating.Num? && !(rating.r > 0.0 && rating.r <= 5.0) then
      Err(RatingOutOfRange)
    else if rating.Absent() && fullText.NoText? then
      Err(AllFieldsNull)
    else
      Ok(true)
  }

  /** The boundaries of the rating check: 0 and 6 are out of range, 5 is
      accepted, and so is a non-integral value such as 0.5. */
  lemma RatingBoundaries(validText: string -> bool)
    ensures CheckReviewFields(validText, NoText, Num(0.0)) == Err(RatingOutOfRange)
    ensures CheckReviewFields(validText, NoText, Num(6.0)) == Err(RatingOutOfRange)
    ensures CheckReviewFields(validText, NoText, Num(5.0)) == Ok(true)
    ensures CheckReviewFields(validText, NoText, Num(0.5)) == Ok(true)
  {
  }

  /** `data.fullText || ''` in addReview: an absent or empty text becomes
      the empty string, any other text is kept. */
  function DefaultText(fullText: Text): Text {
    Str(if fullText.Str? then fullText.s else "")
  }

  /** Because addReview always passes a text, its validation never
      reports that all fields are null; an absent text is checked as the
      empty string instead. */
  lemma AddNeverAllFieldsNull(validText: string -> bool, fullText: Text, rating: Rating)
    ensures CheckReviewFields(validText, DefaultText(fullText), rating) != Err(AllFieldsNull)
    ensures fullText.NoText? && !validText("") ==>
      CheckReviewFields(validText, DefaultText(fullText), rating) == Err(MustSupplyFulltext)
  {
  }

  // ---------------------------------------------------------------------
  // The review table
  // ---------------------------------------------------------------------

  /** One row of the `review` table; the rating column may hold NULL. */
  datatype Row = Row(id: int, gameID: int, userID: int, fullText: string, rating: Option<real>, flag: int)

  /** The id column of a sequence of rows, in order. */
  function IdsOf(rows: seq<Row>): (ids: seq<int>)
    ensures |ids| == |rows|
  {
    seq(|rows|, i requires 0 <= i < |rows| => rows[i].id)
  }

  /** The id column of two tables joined is their id columns joined. */
  lemma IdsOfConcat(a: seq<Row>, b: seq<Row>)
    ensures IdsOf(a + b) == IdsOf(a) + IdsOf(b)
  {
    assert forall i :: 0 <= i < |a + b| ==> IdsOf(a + b)[i] == (IdsOf(a) + IdsOf(b))[i];
  }

  /** Ids strictly increase along the table, so they are unique and the
      table is in insertion order. */
  predicate IdsIncreasing(rows: seq<Row>) {
    forall i, j :: 0 <= i < j < |rows| ==> rows[i].id < rows[j].id
  }

  /** `SELECT COUNT(id) as records FROM review WHERE ID = id`: the number
      of rows with that id. It is zero exactly when no row has the id, and
      at most one over a table whose ids increase. */
  function RecordsWithId(rows: seq<Row>, id: int): (n: nat)
    ensures n == 0 <==> id !in IdsOf(rows)
    ensures IdsIncreasing(rows) ==> n <= 1
  {
    if rows == [] then 0
    else
      var rest := RecordsWithId(rows[1..], id);
      assert IdsOf(rows) == [rows[0].id] + IdsOf(rows[1..]);
      assert IdsIncreasing(rows) ==> IdsIncreasing(rows[1..]) by {
        if IdsIncreasing(rows) {
          IdsIncreasingTail(rows);
        }
      }
      assert IdsIncreasing(rows) && rows[0].id == id ==> id !in IdsOf(rows[1..]) by {
        if IdsIncreasing(rows) && rows[0].id == id {
          assert forall k :: 0 <= k < |rows[1..]| ==> IdsOf(rows[1..])[k] == rows[k + 1].id;
        }
      }
      (if rows[0].id == id then 1 else 0) + rest
  }

  /** `SELECT * FROM review WHERE gameID = g`: the rows of game `g`, in table order. */
  function RowsOfGame(rows: seq<Row>, g: int): (r: seq<Row>)
    ensures |r| <= |rows|
    ensures forall x :: x in r ==> x in rows && x.gameID == g
    ensures forall x :: x in rows && x.gameID == g ==> x in r
  {
    if rows == [] then []
    else (if rows[0].gameID == g then [rows[0]] else []) + RowsOfGame(rows[1..], g)
  }

  /** Listing a game distributes over a split of the table: the rows of
      the first part come first, each part in its own order. */
  lemma {:induction false} RowsOfGameConcat(a: seq<Row>, b: seq<Row>, g: int)
    ensures RowsOfGame(a + b, g) == RowsOfGame(a, g) + RowsOfGame(b, g)
  {
    if a == [] {
      assert a + b == b;
    } else {
      assert (a + b)[0] == a[0];
      assert (a + b)[1..] == a[1..] + b;
      RowsOfGameConcat(a[1..], b, g);
    }
  }

  /** The listing keeps table order: over a table whose ids increase, the
      listed ids increase too. */
  lemma {:induction false} RowsOfGameOrdered(rows: seq<Row>, g: int)
    requires IdsIncreasing(rows)
    ensures IdsIncreasing(RowsOfGame(rows, g))
  {
    if rows != [] {
      var tail := rows[1..];
      IdsIncreasingTail(rows);
      RowsOfGameOrdered(tail, g);
      if rows[0].gameID == g {
        var rest := RowsOfGame(tail, g);
        forall x | x in rest ensures rows[0].id < x.id {
          var k :| 0 <= k < |tail| && tail[k] == x;
          assert rows[k + 1] == x;
        }
        IdsIncreasingCons(rows[0], rest);
      }
    }
  }

  lemma IdsIncreasingTail(rows: seq<Row>)
    requires rows != [] && IdsIncreasing(rows)
    ensures IdsIncreasing(rows[1..])
  {
    forall i, j | 0 <= i < j < |rows[1..]| ensures rows[1..][i].id < rows[1..][j].id {
      assert rows[1..][i] == rows[i + 1] && rows[1..][j] == rows[j + 1];
    }
  }

  lemma IdsIncreasingCons(x: Row, s: seq<Row>)
    requires IdsIncreasing(s)
    requires forall y :: y in s ==> x.id < y.id
    ensures IdsIncreasing([x] + s)
  {
    var r := [x] + s;
    forall i, j | 0 <= i < j < |r| ensures r[i].id < r[j].id {
      assert r[j] == s[j - 1] && s[j - 1] in s;
      if i > 0 {
        assert r[i] == s[i - 1];
      }
    }
  }

  /** Appending a row adds it to the end of its own game's listing and
      leaves every other game's listing as it was. */
  lemma RowsOfGameAppend(rows: seq<Row>, row: Row, g: int)
    ensures RowsOfGame(rows + [row], g) ==
      RowsOfGame(rows, g) + (if row.gameID == g then [row] else [])
  {
    RowsOfGameConcat(rows, [row], g);
    assert [row][1..] == [];
  }

  /** Two tables that agree row by row on id and gameID list the same
      review ids, in the same order, for every game: changing the text or
      rating of rows moves no review to another game. */
  lemma {:induction false} RowsOfGameSameIds(a: seq<Row>, b: seq<Row>)
    requires |a| == |b|
    requires forall i :: 0 <= i < |a| ==> a[i].id == b[i].id && a[i].gameID == b[i].gameID
    ensures forall g :: IdsOf(RowsOfGame(a, g)) == IdsOf(RowsOfGame(b, g))
  {
    if a != [] {
      assert forall i :: 0 <= i < |a[1..]| ==> a[1..][i] == a[i + 1] && b[1..][i] == b[i + 1];
      RowsOfGameSameIds(a[1..], b[1..]);
      forall g ensures IdsOf(RowsOfGame(a, g)) == IdsOf(RowsOfGame(b, g)) {
        var ha := if a[0].gameID == g then [a[0]] else [];
        var hb := if b[0].gameID == g then [b[0]] else [];
        IdsOfConcat(ha, RowsOfGame(a[1..], g));
        IdsOfConcat(hb, RowsOfGame(b[1..], g));
        assert IdsOf(ha) == IdsOf(hb);
      }
    }
  }

  /** `UPDATE review SET fullText = s WHERE ID = id`: only the fullText
      column of the rows with that id changes, so the ids, their order and
      every game's listing of review ids stay as they were. */
  function SetFullText(rows: seq<Row>, id: int, s: string): (r: seq<Row>)
    ensures IdsOf(r) == IdsOf(rows)
    ensures forall g :: IdsOf(RowsOfGame(r, g)) == IdsOf(RowsOfGame(rows, g))
    ensures forall i :: 0 <= i < |r| ==> r[i].(fullText := rows[i].fullText) == rows[i]
    ensures forall i :: 0 <= i < |r| && rows[i].id == id ==> r[i].fullText == s
    ensures forall i :: 0 <= i < |r| && rows[i].id != id ==> r[i] == rows[i]
  {
    var r := seq(|rows|, i requires 0 <= i < |rows| => if rows[i].id == id then rows[i].(fullText := s) else rows[i]);
    RowsOfGameSameIds(r, rows);
    r
  }

  /** `UPDATE review SET rating = v WHERE ID = id`: only the rating column
      of the rows with that id changes, so the ids, their order and every
      game's listing of review ids stay as they were. */
  function SetRating(rows: seq<Row>, id: int, v: real): (r: seq<Row>)
    ensures IdsOf(r) == IdsOf(rows)
    ensures forall g :: IdsOf(RowsOfGame(r, g)) == IdsOf(RowsOfGame(rows, g))
    ensures forall i :: 0 <= i < |r| ==> r[i].(rating := rows[i].rating) == rows[i]
    ensures forall i :: 0 <= i < |r| && rows[i].id == id ==> r[i].rating == Some(v)
    ensures forall i :: 0 <= i < |r| && rows[i].id != id ==> r[i] == rows[i]
  {
    var r := seq(|rows|, i requires 0 <= i < |rows| => if rows[i].id == id then rows[i].(rating := Some(v)) else rows[i]);
    RowsOfGameSameIds(r, rows);
    r
  }

  /** What every row the store writes satisfies: user 1, flag 0, a
      NULL rating or one in (0, 5], and a text the validator accepts. */
  predicate WellFormed(validText: string -> bool, row: Row) {
    row.userID == 1 && row.flag == 0
    && (row.rating.None? || 0.0 < row.rating.value <= 5.0)
    && validText(row.fullText)
  }

  /** The table invariant: ids are positive, increase along the table
      and lie below the counter, and every row is well formed. */
  predicate TableInvariant(validText: string -> bool, rows: seq<Row>, nextId: int) {
    1 <= nextId
    && IdsIncreasing(rows)
    && forall i :: 0 <= i < |rows| ==> 1 <= rows[i].id < nextId && WellFormed(validText, rows[i])
  }

  /** A row after the UPDATE statements for the supplied fields. */
  function UpdatedRow(row: Row, fullText: Text, rating: Rating): Row {
    row.(fullText := if fullText.Str? then fullText.s else row.fullText,
         rating := if rating.Num? then Some(rating.r) else row.rating)
  }

  /** Updating, with fields that passed validation, the rows that carry
      a given id keeps the table invariant. */
  lemma UpdateKeepsInvariant(validText: string -> bool, rows: seq<Row>, nextId: int, id: int,
                             fullText: Text, rating: Rating, updated: seq<Row>)
    requires TableInvariant(validText, rows, nextId)
    requires CheckReviewFields(validText, fullText, rating).Ok?
    requires |updated| == |rows|
    requires forall i :: 0 <= i < |rows| ==>
      updated[i] == if rows[i].id != id then rows[i] else UpdatedRow(rows[i], fullText, rating)
    ensures TableInvariant(validText, updated, nextId)
  {
    assert IdsIncreasing(updated) by {
      forall i, j | 0 <= i < j < |updated| ensures updated[i].id < updated[j].id {
        assert updated[i].id == rows[i].id && updated[j].id == rows[j].id;
      }
    }
    forall i | 0 <= i < |updated|
      ensures 1 <= updated[i].id < nextId && WellFormed(validText, updated[i])
    {
      assert updated[i].id == rows[i].id;
    }
  }

  /** The two UPDATE statements of updateReview, run one after the other:
      together they turn exactly the rows with that id into their updated
      form, and leave every game's listing of review ids as it was. */
  lemma UpdateStatementsRows(rows: seq<Row>, id: int, fullText: Text, rating: Rating,
                             afterText: seq<Row>, afterRating: seq<Row>)
    requires afterText == if fullText.Str? then SetFullText(rows, id, fullText.s) else rows
    requires afterRating == if rating.Num? then SetRating(afterText, id, rating.r) else afterText
    ensures |afterRating| == |rows|
    ensures forall i :: 0 <= i < |rows| ==>
      afterRating[i] == if rows[i].id != id then rows[i] else UpdatedRow(rows[i], fullText, rating)
    ensures forall g :: IdsOf(RowsOfGame(afterRating, g)) == IdsOf(RowsOfGame(rows, g))
  {
    assert IdsOf(afterText) == IdsOf(rows);
    forall i | 0 <= i < |rows|
      ensures afterRating[i] == if rows[i].id != id then rows[i] else UpdatedRow(rows[i], fullText, rating)
    {
      assert IdsOf(afterText)[i] == IdsOf(rows)[i];
    }
  }

  /** The result object `{reviews: [...]}` of getReviewsByGameID. */
  datatype ReviewList = ReviewList(reviews: seq<Row>)

  /** The review store: the `review` table, its autoincrement counter, the
      game catalog it looks games up in, and the text validator. */
  class ReviewStore {
    const validText: string -> bool
    var games: set<int>
    var rows: seq<Row>
    var nextId: int

    /** The table invariant holds of the rows and the counter. */
    ghost predicate Valid()
      reads this
    {
      TableInvariant(validText, rows, nextId)
    }

    /** A fresh store: an empty table whose first id will be 1. */
    constructor (validText: string -> bool, games: set<int>)
      ensures Valid()
      ensures this.validText == validText && this.games == games
      ensures rows == [] && nextId == 1
    {
      this.validText := validText;
      this.games := games;
      rows := [];
      nextId := 1;
    }

    /** `addReview(gameID, data, userID)`. The userID argument is not
        used: the row is stored with user 1. A `null` rating is stored as
        NULL; an `undefined` one makes the INSERT fail. */
    method AddReview(gameID: Ident, data: ReviewData, userID: Ident) returns (r: Result<int>)
      requires Valid()
      modifies this
      ensures Valid()
      ensures games == old(games)
      // error precedence: data, gameID, the fields, the game lookup, the insert
      ensures data.NoData? ==> r == Err(DataNotAnObject)
      ensures data.Data? && !gameID.Number? ==> r == Err(MustSupplyGameID)
      ensures (data.Data? && gameID.Number?
               && CheckReviewFields(validText, DefaultText(data.fullText), data.rating).Err?) ==>
        r == Err(CheckReviewFields(validText, DefaultText(data.fullText), data.rating).error)
      ensures (data.Data? && gameID.Number?
               && CheckReviewFields(validText, DefaultText(data.fullText), data.rating).Ok?
               && gameID.n !in games) ==> r == Err(GameNotFound)
      ensures (data.Data? && gameID.Number?
               && CheckReviewFields(validText, DefaultText(data.fullText), data.rating).Ok?
               && gameID.n in games && data.rating.Undefined?) ==> r == Err(InsertFailed)
      ensures r.Ok? <==>
        data.Data? && gameID.Number? && gameID.n in games
        && validText(DefaultText(data.fullText).s)
        && (data.rating.Null? || (data.rating.Num? && 0.0 < data.rating.r <= 5.0))
      // a failed call leaves the table untouched
      ensures r.Err? ==> rows == old(rows) && nextId == old(nextId)
      // success appends exactly one row under a fresh id
      ensures r.Ok? ==>
        r.value == old(nextId)
        && r.value !in IdsOf(old(rows))
        && rows == old(rows) + [Row(r.value, gameID.n, 1, DefaultText(data.fullText).s,
                                    if data.rating.Num? then Some(data.rating.r) else None, 0)]
        && nextId == old(nextId) + 1
      // ... and that row goes to the end of its game's listing only
      ensures r.Ok? ==>
        forall g :: RowsOfGame(rows, g) ==
                    RowsOfGame(old(rows), g) + (if g == gameID.n then [rows[|rows| - 1]] else [])
    {
      if data.NoData? {
        return Err(DataNotAnObject);
      }
      if !gameID.Number? {
        return Err(MustSupplyGameID);
      }
      var text := DefaultText(data.fullText);
      var check := CheckReviewFields(validText, text, data.rating);
      if check.Err? {
        return Err(check.error);
      }
      if gameID.n !in games {
        return Err(GameNotFound);
      }
      if data.rating.Undefined? {
        return Err(InsertFailed);
      }
      var id := nextId;
      var row := Row(id, gameID.n, 1, text.s, if data.rating.Num? then Some(data.rating.r) else None, 0);
      ghost var before := rows;
      rows := rows + [row];
      nextId := nextId + 1;
      forall g ensures RowsOfGame(rows, g) == RowsOfGame(before, g) + (if g == gameID.n then [row] else []) {
        RowsOfGameAppend(before, row, g);
      }
      r := Ok(id);
    }

    /** `updateReview(reviewID, data)`: the id is checked, then that its
        row exists, then the fields; each supplied field is then written
        by its own UPDATE statement. */
    method UpdateReview(reviewID: Ident, data: ReviewData) returns (r: Result<bool>)
      requires Valid()
      modifies this
      ensures Valid()
      ensures games == old(games) && nextId == old(nextId)
      ensures data.NoData? ==> r == Err(DataNotAnObject)
      ensures data.Data? && !reviewID.Number? ==> r == Err(MustSupplyReviewID)
      ensures (data.Data? && reviewID.Number? && reviewID.n !in IdsOf(old(rows))) ==>
        r == Err(ReviewNotFound)
      ensures (data.Data? && reviewID.Number? && reviewID.n in IdsOf(old(rows))
               && CheckReviewFields(validText, data.fullText, data.rating).Err?) ==>
        r == Err(CheckReviewFields(validText, data.fullText, data.rating).error)
      ensures r.Ok? <==>
        data.Data? && reviewID.Number? && reviewID.n in IdsOf(old(rows))
        && CheckReviewFields(validText, data.fullText, data.rating).Ok?
      // a failed call leaves the table untouched
      ensures r.Err? ==> rows == old(rows)
      // success changes only the supplied columns of the row with that id
      ensures r.Ok? ==>
        r.value
        && |rows| == |old(rows)|
        && forall i :: 0 <= i < |rows| ==>
             rows[i] == if old(rows)[i].id != reviewID.n then old(rows)[i]
                        else UpdatedRow(old(rows)[i], data.fullText, data.rating)
      // no review changes game, and each game lists the same ids in the same order
      ensures forall g :: IdsOf(RowsOfGame(rows, g)) == IdsOf(RowsOfGame(old(rows), g))
    {
      if data.NoData? {
        return Err(DataNotAnObject);
      }
      if !reviewID.Number? {
        return Err(MustSupplyReviewID);
      }
      var id := reviewID.n;
      if RecordsWithId(rows, id) == 0 {
        return Err(ReviewNotFound);
      }
      var check := CheckReviewFields(validText, data.fullText, data.rating);
      if check.Err? {
        return Err(check.error);
      }
      ghost var before := rows;
      if data.fullText.Str? {
        rows := SetFullText(rows, id, data.fullText.s);
      }
      ghost var afterText := rows;
      if data.rating.Num? {
        rows := SetRating(rows, id, data.rating.r);
      }
      UpdateStatementsRows(before, id, data.fullText, data.rating, afterText, rows);
      UpdateKeepsInvariant(validText, before, nextId, id, data.fullText, data.rating, rows);
      r := Ok(true);
    }

    /** `getReviewsByGameID(gameID)`: after the id check and the game
        lookup, the selected rows are copied one by one into the result. */
    method GetReviewsByGameID(gameID: Ident) returns (r: Result<ReviewList>)
      ensures !gameID.Number? ==> r == Err(MustSupplyGameID)
      ensures gameID.Number? && gameID.n !in games ==> r == Err(GameNotFound)
      ensures gameID.Number? && gameID.n in games ==> r == Ok(ReviewList(RowsOfGame(rows, gameID.n)))
    {
      if !gameID.Number? {
        return Err(MustSupplyGameID);
      }
      if gameID.n !in games {
        return Err(GameNotFound);
      }
      var data := RowsOfGame(rows, gameID.n);
      var reviews: seq<Row> := [];
      var i := 0;
      while i < |data|
        invariant 0 <= i <= |data|
        invariant reviews == data[..i]
      {
        reviews := reviews + [data[i]];
        i := i + 1;
      }
      assert data[..|data|] == data;
      r := Ok(ReviewList(reviews));
    }
  }
}
