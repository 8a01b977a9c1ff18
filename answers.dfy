/**
 * Reading a fixed number of answers from the console, as the exam-taking methods of
 * `LR1/entities/student.py` do: each line is stripped, and a blank line or the end of the
 * input abandons the reading.
 */
module Answering {
  import opened Text

  /** The answers typed in, the unread input, and whether one was read for every question. */
  datatype Answers = Answers(answers: seq<string>, rest: seq<string>, ok: bool)

  function Prefixed(given: seq<string>, a: Answers): Answers {
    Answers(given + a.answers, a.rest, a.ok)
  }

  /**
   * Reading `count` answers, each stripped: a blank answer raises `ValueError`, and so (as
   * `EOFError`) does running out of input; either abandons the reading.
   */
  function ReadAnswers(count: nat, input: seq<string>): (r: Answers)
    ensures r.ok ==> |r.answers| == count
    decreases count
  {
    if count == 0 then Answers([], input, true)
    else if input == [] then Answers([], [], false)
    else if Strip(input[0]) == "" then Answers([], input[1..], false)
    else Prefixed([Strip(input[0])], ReadAnswers(count - 1, input[1..]))
  }

  /** Every answer read is stripped and non-blank, and there are never more than asked for. */
  lemma {:induction false} ReadAnswersNonBlank(count: nat, input: seq<string>)
    ensures var r := ReadAnswers(count, input);
            |r.answers| <= count && forall i :: 0 <= i < |r.answers| ==> r.answers[i] != "" && Trimmed(r.answers[i])
    decreases count
  {
    if count > 0 && input != [] && Strip(input[0]) != "" {
      ReadAnswersNonBlank(count - 1, input[1..]);
      var r := ReadAnswers(count - 1, input[1..]);
      assert ReadAnswers(count, input).answers == [Strip(input[0])] + r.answers;
    }
  }

  /** Reading never produces input: what is left is a suffix of what was there. */
  lemma {:induction false} ReadAnswersRest(count: nat, input: seq<string>)
    ensures var r := ReadAnswers(count, input);
            |r.rest| <= |input| && r.rest == input[|input| - |r.rest|..]
    decreases count
  {
    if count > 0 && input != [] && Strip(input[0]) != "" {
      ReadAnswersRest(count - 1, input[1..]);
      var r := ReadAnswers(count - 1, input[1..]);
      assert input[1..][|input| - 1 - |r.rest|..] == input[|input| - |r.rest|..];
    }
  }

  lemma PrefixedAppend(a: seq<string>, b: seq<string>, r: Answers)
    ensures Prefixed(a + b, r) == Prefixed(a, Prefixed(b, r))
  {
    assert (a + b) + r.answers == a + (b + r.answers);
  }

  /** The reading loop of `set_exam_result`, `re_passing_the_exam` and `practice_test`. */
  method ReadAnswerLines(count: nat, input: seq<string>) returns (answers: seq<string>, rest: seq<string>, ok: bool)
    ensures Answers(answers, rest, ok) == ReadAnswers(count, input)
  {
    answers, rest := [], input;
    var i := 0;
    assert [] + ReadAnswers(count, input).answers == ReadAnswers(count, input).answers;
    while i < count
      invariant i <= count && |answers| == i
      invariant ReadAnswers(count, input) == Prefixed(answers, ReadAnswers(count - i, rest))
    {
      if rest == [] || Strip(rest[0]) == "" {
        assert answers + [] == answers;
        return answers, if rest == [] then [] else rest[1..], false;
      }
      PrefixedAppend(answers, [Strip(rest[0])], ReadAnswers(count - i - 1, rest[1..]));
      answers, rest, i := answers + [Strip(rest[0])], rest[1..], i + 1;
    }
    assert answers + [] == answers;
    return answers, rest, true;
  }
}
