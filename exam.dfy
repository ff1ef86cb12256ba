/** One run of the program with its I/O abstracted: the parsed rows of the
    CSV file and the lines on standard input go in, and the prompts shown and
    the correct count come out. */
module Exam {
  import opened QuizItems
  import opened Newlines
  import opened Prompts
  import opened Answers
  import opened Scoring

  /** What a completed run reports: `correct` of `total` questions. */
  datatype Report = Report(correct: nat, total: nat, prompts: seq<string>)

  /** The positions at which the response read from `input` equals the stored answer. */
  function MatchingResponses(items: seq<QuizItem>, input: seq<string>): set<nat> {
    set i: nat | i < |items| && items[i].answer == Response(input, i)
  }

  /** After the answer loop, the count is the number of questions whose
      response equals the stored answer. */
  lemma CorrectAfterAnswering(items: seq<QuizItem>, input: seq<string>)
    ensures CorrectCount(Answered(items, input)) == |MatchingResponses(items, input)|
  {
    var done := Answered(items, input);
    CorrectCountIsCardinality(done);
    assert CorrectIndices(done) == MatchingResponses(items, input);
  }

  /** A full score exactly when every response matches its answer. */
  lemma FullScoreIff(items: seq<QuizItem>, input: seq<string>)
    ensures CorrectCount(Answered(items, input)) == |items| <==>
      forall i :: 0 <= i < |items| ==> items[i].answer == Response(input, i)
  {
    AllCorrectIff(Answered(items, input));
  }

  /** A question left unanswered because the input ran out holds the empty
      response, so it is scored correct only when its answer is empty. */
  lemma UnansweredScoring(items: seq<QuizItem>, input: seq<string>, i: nat)
    requires |input| <= i < |items|
    ensures IsCorrect(Answered(items, input)[i]) <==> items[i].answer == ""
  {
  }

  /** Loads the rows, answers every question from `input` in place, and
      counts the correct answers; a short row stops the run before any
      question is asked. */
  method RunExam(rows: seq<seq<string>>, input: seq<string>) returns (r: Result<Report>)
    ensures r.Ok? <==> forall i :: 0 <= i < |rows| ==> HasBothFields(rows[i])
    ensures r.Err? ==>
      r.error.row < |rows| &&
      r.error.fields == |rows[r.error.row]| &&
      !HasBothFields(rows[r.error.row]) &&
      forall j :: 0 <= j < r.error.row ==> HasBothFields(rows[j])
    ensures r.Ok? ==>
      r.value.total == |rows| &&
      r.value.correct <= r.value.total &&
      r.value.correct == |set i: nat | i < |rows| && rows[i][1] == Response(input, i)| &&
      |r.value.prompts| == |rows| &&
      forall i :: 0 <= i < |rows| ==> r.value.prompts[i] == PromptText(i + 1, rows[i][0])
  {
    var loaded := ReadItems(rows);
    if loaded.Err? {
      return Err(loaded.error);
    }
    var items := loaded.value;
    var questions := new QuizItem[|items|](i requires 0 <= i < |items| => items[i]);
    assert questions[..] == items;
    var shown := AnswerAll(questions, input);
    var correct := Score(questions[..]);
    CorrectAfterAnswering(items, input);
    assert MatchingResponses(items, input) ==
      set i: nat | i < |rows| && rows[i][1] == Response(input, i);
    r := Ok(Report(correct, |questions[..]|, shown));
  }

  /** Rows "2+2,4" and "3+3,7" answered "4" and "7", each read as its own
      line (typed input): both responses equal the stored answers, so two of
      two are correct. */
  lemma ScenarioTwoOfTwo(items: seq<QuizItem>)
    requires LoadedFrom(items, [["2+2", "4"], ["3+3", "7"]])
    ensures WellFormedInput(["4\n", "7\n"])
    ensures CorrectCount(Answered(items, ["4\n", "7\n"])) == 2
  {
  }

  /** The same rows with "4\n7\n" arriving in one block (redirected input):
      the first prompt's fresh reader takes both lines and returns only the
      first, so the second prompt sees end of input and one of two is correct. */
  lemma ScenarioBlockInput(items: seq<QuizItem>)
    requires LoadedFrom(items, [["2+2", "4"], ["3+3", "7"]])
    ensures WellFormedInput(["4\n"])
    ensures CorrectCount(Answered(items, ["4\n"])) == 1
  {
  }

  /** Row "1+1, 2": the answer keeps its leading space, so the response "2"
      does not match it. */
  lemma ScenarioUntrimmedAnswer(items: seq<QuizItem>)
    requires LoadedFrom(items, [["1+1", " 2"]])
    ensures WellFormedInput(["2\n"])
    ensures CorrectCount(Answered(items, ["2\n"])) == 0
  {
  }
}
