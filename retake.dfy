/**
 * How `LR1/entities/student.py` judges the answers of a retake and of a practice test:
 * `re_passing_the_exam` notes whether every answer is right, and `practice_test` counts the
 * answers equal to the stripped correct answer.
 */
module Retakes {
  import opened Text
  import opened Exams
  import opened Attempts

  /** The questions with each correct answer stripped, as `practice_test` compares them. */
  function StrippedKeys(qs: seq<Question>): (r: seq<Question>)
    ensures |r| == |qs|
    ensures forall i :: 0 <= i < |qs| ==> r[i].answer == Strip(qs[i].answer)
  {
    seq(|qs|, i requires 0 <= i < |qs| => qs[i].(answer := Strip(qs[i].answer)))
  }

  /** The `result` flag of `re_passing_the_exam`: cleared by the first answer that is not correct. */
  method AllCorrect(qs: seq<Question>, answers: seq<string>) returns (result: bool)
    requires |qs| <= |answers|
    ensures result <==> forall i :: 0 <= i < |qs| ==> answers[i] == qs[i].answer
  {
    result := true;
    var i := 0;
    while i < |qs|
      invariant i <= |qs|
      invariant result <==> forall k :: 0 <= k < i ==> answers[k] == qs[k].answer
    {
      if qs[i].answer != answers[i] {
        result := false;
      }
      i := i + 1;
    }
  }

  /** The `correct_answers` counter of `practice_test`, on questions whose answers are already stripped. */
  method CountCorrect(keys: seq<Question>, answers: seq<string>) returns (count: nat)
    requires |keys| <= |answers|
    ensures count == MatchesUpTo(keys, answers, |keys|)
  {
    count := 0;
    var i := 0;
    while i < |keys|
      invariant i <= |keys|
      invariant count == MatchesUpTo(keys, answers, i)
    {
      if answers[i] == keys[i].answer {
        count := count + 1;
      }
      i := i + 1;
    }
  }
}
