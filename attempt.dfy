/**
 * A past exam attempt (`LR1/entities/previous_exam_attempt.py`): the exam taken and the answers
 * given, question by question, with its score, its `to_dict`/`from_dict` codec, and the
 * `calculate_score` loop.
 */
module Attempts {
  import opened Wrappers
  import opened JsonData
  import opened Exams

  datatype Attempt = Attempt(exam: ExamData, answers: seq<string>)

  function Min(a: nat, b: nat): nat {
    if a <= b then a else b
  }

  /** The number of positions `i < n` at which the answer given equals the correct answer. */
  function MatchesUpTo(qs: seq<Question>, answers: seq<string>, n: nat): (c: nat)
    requires n <= |qs| && n <= |answers|
    ensures c <= n
  {
    if n == 0 then 0
    else MatchesUpTo(qs, answers, n - 1) + (if answers[n - 1] == qs[n - 1].answer then 1 else 0)
  }

  /** The number of correct answers over the positions both lists have (`zip` truncates). */
  function Score(a: Attempt): (s: nat)
    ensures s <= |a.exam.questions| && s <= |a.answers|
    ensures a.exam.questions == [] || a.answers == [] ==> s == 0
  {
    MatchesUpTo(a.exam.questions, a.answers, Min(|a.exam.questions|, |a.answers|))
  }

  /** `calculate_score`: no questions or no answers give 0; otherwise count the matches of the zipped pairs. */
  method CalculateScore(a: Attempt) returns (score: nat)
    ensures score == Score(a)
  {
    if a.exam.questions == [] || a.answers == [] {
      return 0;
    }
    var n := Min(|a.exam.questions|, |a.answers|);
    score := 0;
    var i := 0;
    while i < n
      invariant i <= n
      invariant score == MatchesUpTo(a.exam.questions, a.answers, i)
    {
      if a.answers[i] == a.exam.questions[i].answer {
        score := score + 1;
      }
      i := i + 1;
    }
  }

  /** Only the first `n` positions of either list matter to `MatchesUpTo`. */
  lemma {:induction false} MatchesUpToPrefix(qs: seq<Question>, answers: seq<string>, qs': seq<Question>, answers': seq<string>, n: nat)
    requires n <= |qs| && n <= |answers| && n <= |qs'| && n <= |answers'|
    requires qs[..n] == qs'[..n] && answers[..n] == answers'[..n]
    ensures MatchesUpTo(qs, answers, n) == MatchesUpTo(qs', answers', n)
  {
    if n > 0 {
      assert qs[..n - 1] == qs[..n][..n - 1] && qs'[..n - 1] == qs'[..n][..n - 1];
      assert answers[..n - 1] == answers[..n][..n - 1] && answers'[..n - 1] == answers'[..n][..n - 1];
      assert qs[n - 1] == qs[..n][n - 1] && qs'[n - 1] == qs'[..n][n - 1];
      assert answers[n - 1] == answers[..n][n - 1] && answers'[n - 1] == answers'[..n][n - 1];
      MatchesUpToPrefix(qs, answers, qs', answers', n - 1);
    }
  }

  /** Appending one answer extends the count by that answer's match. */
  lemma MatchesUpToStep(qs: seq<Question>, answers: seq<string>, a: string)
    requires |answers| < |qs|
    ensures MatchesUpTo(qs, answers + [a], |answers| + 1) ==
            MatchesUpTo(qs, answers, |answers|) + (if a == qs[|answers|].answer then 1 else 0)
  {
    var n := |answers|;
    assert (answers + [a])[..n] == answers[..n];
    MatchesUpToPrefix(qs, answers, qs, answers + [a], n);
  }

  /** Extra answers beyond the last question, or extra questions beyond the last answer, do not change the score. */
  lemma ScoreIgnoresExtra(a: Attempt)
    ensures var n := Min(|a.exam.questions|, |a.answers|);
            Score(a) == Score(Attempt(ExamData(a.exam.subject, a.exam.questions[..n]), a.answers[..n]))
  {
    var n := Min(|a.exam.questions|, |a.answers|);
    var qs, answers := a.exam.questions[..n], a.answers[..n];
    assert qs[..n] == a.exam.questions[..n] && answers[..n] == a.answers[..n];
    MatchesUpToPrefix(a.exam.questions, a.answers, qs, answers, n);
  }

  /** Every one of the first `n` answers is correct exactly when all `n` of them count. */
  lemma {:induction false} MatchesUpToAll(qs: seq<Question>, answers: seq<string>, n: nat)
    requires n <= |qs| && n <= |answers|
    ensures MatchesUpTo(qs, answers, n) == n <==> forall i :: 0 <= i < n ==> answers[i] == qs[i].answer
  {
    if n > 0 {
      MatchesUpToAll(qs, answers, n - 1);
    }
  }

  /** With an answer for every question, the score is full exactly when every answer is correct. */
  lemma FullScore(a: Attempt)
    requires |a.answers| >= |a.exam.questions|
    ensures Score(a) == |a.exam.questions| <==>
            forall i :: 0 <= i < |a.exam.questions| ==> a.answers[i] == a.exam.questions[i].answer
  {
    MatchesUpToAll(a.exam.questions, a.answers, |a.exam.questions|);
  }

  /** No correct answer among the first `n` means a count of zero, and conversely. */
  lemma {:induction false} MatchesUpToNone(qs: seq<Question>, answers: seq<string>, n: nat)
    requires n <= |qs| && n <= |answers|
    ensures MatchesUpTo(qs, answers, n) == 0 <==> forall i :: 0 <= i < n ==> answers[i] != qs[i].answer
  {
    if n > 0 {
      MatchesUpToNone(qs, answers, n - 1);
    }
  }

  /** The attempt tests: on the two-question exam, ["2", "2x"] scores 2 and ["1", "1"] scores 0. */
  lemma ScoreOfTwoQuestionExam(subject: Option<string>, t1: string, p1: string, t2: string, p2: string)
    ensures var exam := ExamData(subject, [Question(t1, p1, "2"), Question(t2, p2, "2x")]);
            Score(Attempt(exam, ["2", "2x"])) == 2 && Score(Attempt(exam, ["1", "1"])) == 0
  {
    var exam := ExamData(subject, [Question(t1, p1, "2"), Question(t2, p2, "2x")]);
    MatchesUpToAll(exam.questions, ["2", "2x"], 2);
    assert "1" != "2" && "1" != "2x";
    MatchesUpToNone(exam.questions, ["1", "1"], 2);
  }

  // ---------------------------------------------------------------------------
  // to_dict / from_dict

  function AttemptToJson(a: Attempt): (j: Json)
    ensures j.Obj? && j.fields.Keys == {"exam", "answers"} && Truthy(j)
  {
    Obj(map["exam" := ExamToJson(a.exam), "answers" := StrList(a.answers)])
  }

  /**
   * `PreviousExamAttempt.from_dict`: empty data or data without "exam" or "answers" is
   * rejected; the exam is decoded first; then answers that are not a list are rejected.
   */
  function AttemptFromJson(j: Json): (r: Result<Attempt, DecodeError>)
    ensures !Truthy(j) ==> r == Err(InvalidData)
    ensures j.Obj? && ("exam" !in j.fields || "answers" !in j.fields) ==> r == Err(InvalidData)
    ensures j.Obj? && "exam" in j.fields && "answers" in j.fields && ExamFromJson(j.fields["exam"]).Err? ==>
              r == Err(ExamFromJson(j.fields["exam"]).error)
    ensures (j.Obj? && "exam" in j.fields && "answers" in j.fields && ExamFromJson(j.fields["exam"]).Ok?
             && !j.fields["answers"].Arr?) ==> r == Err(NotAList)
    ensures r.Ok? ==>
              (j.Obj? && "exam" in j.fields && "answers" in j.fields
               && ExamFromJson(j.fields["exam"]) == Ok(r.value.exam)
               && StrList(r.value.answers) == j.fields["answers"])
  {
    if !Truthy(j) then Err(InvalidData)
    else if !j.Obj? then Err(WrongType)
    else if "exam" !in j.fields || "answers" !in j.fields then Err(InvalidData)
    else
      var exam := ExamFromJson(j.fields["exam"]);
      if exam.Err? then Err(exam.error)
      else if !j.fields["answers"].Arr? then Err(NotAList)
      else
        var answers := ReadStrList(j.fields["answers"]);
        if answers.None? then Err(WrongType) else Ok(Attempt(exam.value, answers.value))
  }

  /** `from_dict(to_dict(a))` has the same exam (subject and questions) and the same answers. */
  lemma AttemptRoundTrip(a: Attempt)
    ensures AttemptFromJson(AttemptToJson(a)) == Ok(a)
  {
    ExamRoundTrip(a.exam);
    ReadStrListOfStrList(a.answers);
  }
}
