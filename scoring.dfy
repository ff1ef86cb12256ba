/** The correct-answer count of `score`. */
module Scoring {
  import opened QuizItems

  /** A response is correct when it equals the stored answer exactly: no
      trimming, no case folding. */
  predicate IsCorrect(item: QuizItem) {
    item.answer == item.answered
  }

  /** Number of correctly answered items, counted front to back. */
  function CorrectCount(items: seq<QuizItem>): (c: nat)
    ensures c <= |items|
  {
    if items == [] then 0
    else CorrectCount(items[..|items| - 1]) + (if IsCorrect(items[|items| - 1]) then 1 else 0)
  }

  /** The positions of the correctly answered items. */
  function CorrectIndices(items: seq<QuizItem>): set<nat> {
    set i: nat | i < |items| && IsCorrect(items[i])
  }

  /** The count is the number of positions whose response matches the answer. */
  lemma {:induction false} CorrectCountIsCardinality(items: seq<QuizItem>)
    ensures CorrectCount(items) == |CorrectIndices(items)|
  {
    if items != [] {
      var n := |items| - 1;
      var front := items[..n];
      CorrectCountIsCardinality(front);
      assert n !in CorrectIndices(front);
      if IsCorrect(items[n]) {
        assert CorrectIndices(items) == CorrectIndices(front) + {n};
      } else {
        assert CorrectIndices(items) == CorrectIndices(front);
      }
    }
  }

  /** Every item is correct exactly when the count is the number of items. */
  lemma {:induction false} AllCorrectIff(items: seq<QuizItem>)
    ensures CorrectCount(items) == |items| <==> forall i :: 0 <= i < |items| ==> IsCorrect(items[i])
  {
    if items != [] {
      var n := |items| - 1;
      AllCorrectIff(items[..n]);
      assert forall i :: 0 <= i < n ==> items[..n][i] == items[i];
    }
  }

  /** No item is correct exactly when the count is zero. */
  lemma {:induction false} NoneCorrectIff(items: seq<QuizItem>)
    ensures CorrectCount(items) == 0 <==> forall i :: 0 <= i < |items| ==> !IsCorrect(items[i])
  {
    if items != [] {
      var n := |items| - 1;
      NoneCorrectIff(items[..n]);
      assert forall i :: 0 <= i < n ==> items[..n][i] == items[i];
    }
  }

  /** Counts the correct answers of an exam, one question after another. */
  method Score(questions: seq<QuizItem>) returns (correct: nat)
    ensures correct == CorrectCount(questions)
  {
    correct := 0;
    var i := 0;
    while i < |questions|
      invariant 0 <= i <= |questions|
      invariant correct == CorrectCount(questions[..i])
    {
      var question := questions[i];
      assert questions[..i + 1][..i] == questions[..i];
      if question.answer == question.answered {
        correct := correct + 1;
      }
      i := i + 1;
    }
    assert questions[..i] == questions;
  }
}
