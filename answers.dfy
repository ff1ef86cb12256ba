/** The answer-collection loop of the program's entry point: for each question,
    in order, show its numbered prompt, read one line and store it, without
    newlines, as that question's response. Standard input is given as the
    sequence of raw lines it holds, each as the read returns it (with its
    trailing '\n', except possibly the last). */
module Answers {
  import opened QuizItems
  import opened Newlines
  import opened Prompts

  /** What the `i`-th read returns: line `i`, or the empty string once the
      input is exhausted (the read error at end of input is ignored). */
  function ReadLine(input: seq<string>, i: nat): string {
    if i < |input| then input[i] else ""
  }

  /** The response `prompt` returns for the `i`-th question. */
  function Response(input: seq<string>, i: nat): (r: string)
    ensures '\n' !in r
    ensures i >= |input| ==> r == ""
  {
    StripNewlines(ReadLine(input, i))
  }

  /** `input` has the shape successive `ReadString('\n')` calls give: each
      line holds at most one '\n', as its last character, and only the last
      line may lack it (input that ends without a newline). */
  predicate WellFormedInput(input: seq<string>) {
    forall i :: 0 <= i < |input| ==>
      (forall k :: 0 <= k < |input[i]| - 1 ==> input[i][k] != '\n') &&
      (i < |input| - 1 ==> |input[i]| > 0 && input[i][|input[i]| - 1] == '\n')
  }

  /** On input of that shape, a response is its line without the delimiter. */
  lemma ResponseOfLine(input: seq<string>, i: nat)
    requires WellFormedInput(input) && i < |input|
    ensures input[i] == Response(input, i) + "\n" ||
      (i == |input| - 1 && input[i] == Response(input, i))
  {
    var line := input[i];
    if |line| > 0 && line[|line| - 1] == '\n' {
      var body := line[..|line| - 1];
      assert line == body + "\n";
      assert '\n' !in body by {
        forall k | 0 <= k < |body| ensures body[k] != '\n' {
          assert body[k] == line[k];
        }
      }
      StripNewlinesAppend(body, "\n");
      StripNewlinesNoNewline(body);
    } else {
      assert '\n' !in line;
      StripNewlinesNoNewline(line);
    }
  }

  /** The questions after every one of them has been answered from `input`:
      same length, same questions and answers, and the `i`-th response in
      the `i`-th item. */
  function Answered(items: seq<QuizItem>, input: seq<string>): (r: seq<QuizItem>)
    ensures |r| == |items|
    ensures forall i :: 0 <= i < |items| ==>
      r[i].question == items[i].question && r[i].answer == items[i].answer &&
      r[i].answered == Response(input, i)
  {
    seq(|items|, i requires 0 <= i < |items| => items[i].(answered := Response(input, i)))
  }

  /** The prompts shown, one per question in order, numbered from 1. */
  function PromptsShown(items: seq<QuizItem>): (ps: seq<string>)
    ensures |ps| == |items|
  {
    seq(|items|, i requires 0 <= i < |items| => PromptText(i + 1, items[i].question))
  }

  /** Fills in every question's response in place, in question order, and
      returns the prompts it showed. */
  method AnswerAll(questions: array<QuizItem>, input: seq<string>) returns (shown: seq<string>)
    modifies questions
    ensures questions[..] == Answered(old(questions[..]), input)
    ensures shown == PromptsShown(old(questions[..]))
  {
    shown := [];
    var index := 0;
    while index < questions.Length
      invariant 0 <= index <= questions.Length
      invariant forall k :: 0 <= k < index ==>
        questions[k] == old(questions[k]).(answered := Response(input, k))
      invariant forall k :: index <= k < questions.Length ==> questions[k] == old(questions[k])
      invariant |shown| == index
      invariant forall k :: 0 <= k < index ==> shown[k] == PromptText(k + 1, old(questions[k]).question)
    {
      var question := questions[index];
      var str := PromptText(index + 1, question.question);
      shown := shown + [str];
      questions[index] := questions[index].(answered := Response(input, index));
      index := index + 1;
    }
  }

  /** The `i`-th prompt (0-based) is numbered `i + 1` and shows the `i`-th
      question. */
  lemma PromptsNumbered(items: seq<QuizItem>, i: nat)
    requires i < |items|
    ensures PromptNumber(PromptsShown(items)[i]) == i + 1
    ensures var p := PromptsShown(items)[i]; var q := items[i].question;
      p[|p| - |q| - 4..] == q + " ?  "
  {
    PromptTextParts(i + 1, items[i].question);
  }
}
