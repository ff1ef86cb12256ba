/** The quiz record and the conversion of already-parsed CSV rows into records
    (the loop at the end of readCsv). Opening the file and the CSV parsing
    itself are not part of this module: it starts from the parsed rows. */
module QuizItems {

  /** One question of the exam. `question` and `answer` are the first two CSV
      fields, copied verbatim; `answered` is the user's response, empty until
      the answer loop fills it in. */
  datatype QuizItem = QuizItem(question: string, answer: string, answered: string)

  /** Why the conversion stopped: row `row` has only `fields` fields, so
      reading field 0 or field 1 of it is an index out of range (a panic in
      the program). */
  datatype LoadError = ShortRow(row: nat, fields: nat)

  datatype Result<T> = Ok(value: T) | Err(error: LoadError)

  /** A row from which both a question and an answer can be read. */
  predicate HasBothFields(row: seq<string>) {
    |row| >= 2
  }

  /** `items` is what converting `rows` gives: one item per row, in row order,
      question from field 0 and answer from field 1 without any trimming,
      nothing answered yet, and every further field ignored. */
  predicate LoadedFrom(items: seq<QuizItem>, rows: seq<seq<string>>) {
    |items| == |rows| &&
    forall i :: 0 <= i < |rows| ==>
      HasBothFields(rows[i]) && items[i] == QuizItem(rows[i][0], rows[i][1], "")
  }

  /** Converts the parsed rows into quiz items, appending one item per row.
      The first row with fewer than two fields stops the conversion. */
  method ReadItems(rows: seq<seq<string>>) returns (r: Result<seq<QuizItem>>)
    ensures r.Ok? <==> forall i :: 0 <= i < |rows| ==> HasBothFields(rows[i])
    ensures r.Ok? ==> LoadedFrom(r.value, rows)
    ensures r.Err? ==>
      r.error.row < |rows| &&
      r.error.fields == |rows[r.error.row]| &&
      !HasBothFields(rows[r.error.row]) &&
      forall j :: 0 <= j < r.error.row ==> HasBothFields(rows[j])
  {
    var items: seq<QuizItem> := [];
    var i := 0;
    while i < |rows|
      invariant 0 <= i <= |rows|
      invariant forall j :: 0 <= j < i ==> HasBothFields(rows[j])
      invariant LoadedFrom(items, rows[..i])
    {
      var line := rows[i];
      if |line| < 2 {
        return Err(ShortRow(i, |line|));
      }
      items := items + [QuizItem(line[0], line[1], "")];
      i := i + 1;
    }
    assert rows[..i] == rows;
    r := Ok(items);
  }

  /** The rows determine the converted items completely. */
  lemma LoadedFromUnique(a: seq<QuizItem>, b: seq<QuizItem>, rows: seq<seq<string>>)
    requires LoadedFrom(a, rows) && LoadedFrom(b, rows)
    ensures a == b
  {
  }
}
