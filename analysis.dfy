/**
 * The error analysis of `LR1/entities/student.py`: the wrong answers of the last attempt, the
 * topic set `analyze_errors` leaves behind, and how `study_materials` discards the topics the
 * materials cover.
 */
module ErrorAnalysis {
  import opened Wrappers
  import opened Exams
  import opened Attempts
  import opened Materials

  // ---------------------------------------------------------------------------
  // Error analysis

  /** One entry of `analyze_errors`: (index, question, topic, answer given, correct answer). */
  datatype ErrorEntry = ErrorEntry(index: nat, question: string, topic: string, given: string, correct: string)

  function ErrorAt(qs: seq<Question>, answers: seq<string>, i: nat): ErrorEntry
    requires i < |qs| && i < |answers|
  {
    ErrorEntry(i, qs[i].prompt, qs[i].topic, answers[i], qs[i].answer)
  }

  /** The error entries of the first `n` questions, in question order. */
  function ErrorsUpTo(qs: seq<Question>, answers: seq<string>, n: nat): (es: seq<ErrorEntry>)
    requires n <= |qs| && n <= |answers|
    ensures |es| + MatchesUpTo(qs, answers, n) == n
    ensures forall k :: 0 <= k < |es| ==>
              es[k].index < n && answers[es[k].index] != qs[es[k].index].answer && es[k] == ErrorAt(qs, answers, es[k].index)
    ensures forall k, l :: 0 <= k < l < |es| ==> es[k].index < es[l].index
  {
    if n == 0 then []
    else
      var es := ErrorsUpTo(qs, answers, n - 1);
      if answers[n - 1] != qs[n - 1].answer then
        var r := es + [ErrorAt(qs, answers, n - 1)];
        assert r[|es|].index == n - 1;
        r
      else es
  }

  /** One more question: its entry is appended, and its topic becomes the last, exactly when its answer is wrong. */
  lemma ErrorStep(qs: seq<Question>, answers: seq<string>, i: nat)
    requires i < |qs| && i < |answers|
    ensures ErrorsUpTo(qs, answers, i + 1)
              == if answers[i] != qs[i].answer then ErrorsUpTo(qs, answers, i) + [ErrorAt(qs, answers, i)]
                 else ErrorsUpTo(qs, answers, i)
    ensures LastErrorTopic(qs, answers, i + 1)
              == if answers[i] != qs[i].answer then Some(qs[i].topic) else LastErrorTopic(qs, answers, i)
  {
  }

  /** Every wrong answer among the first `n` has its entry. */
  lemma {:induction false} ErrorsUpToComplete(qs: seq<Question>, answers: seq<string>, n: nat, i: nat)
    requires n <= |qs| && n <= |answers|
    requires i < n && answers[i] != qs[i].answer
    ensures ErrorAt(qs, answers, i) in ErrorsUpTo(qs, answers, n)
  {
    if i < n - 1 {
      ErrorsUpToComplete(qs, answers, n - 1, i);
    } else {
      var es := ErrorsUpTo(qs, answers, n - 1);
      assert ErrorsUpTo(qs, answers, n) == es + [ErrorAt(qs, answers, i)];
    }
  }

  /** The topic of the last wrong answer among the first `n` questions, if any. */
  function LastErrorTopic(qs: seq<Question>, answers: seq<string>, n: nat): (t: Option<string>)
    requires n <= |qs| && n <= |answers|
    ensures t.None? <==> ErrorsUpTo(qs, answers, n) == []
    ensures t.Some? ==> t.value == ErrorsUpTo(qs, answers, n)[|ErrorsUpTo(qs, answers, n)| - 1].topic
  {
    if n == 0 then None
    else if answers[n - 1] != qs[n - 1].answer then Some(qs[n - 1].topic)
    else LastErrorTopic(qs, answers, n - 1)
  }

  /**
   * The topic set after each error has replaced it with the one-element set of its topic:
   * only the last error's topic remains, or the set is untouched when there was no error.
   */
  function TopicsAfterErrors(topics: Option<set<string>>, last: Option<string>): Option<set<string>> {
    if last.Some? then Some({last.value}) else topics
  }

  /** Why `analyze_errors` raises: fewer answers than questions (`IndexError`). */
  datatype AnalysisError = IndexOutOfRange

  /** What `analyze_errors` returns or raises, the topic set it leaves, and whether it saved. */
  datatype Analysis = Analysis(errors: Result<seq<ErrorEntry>, AnalysisError>, topics: Option<set<string>>, saves: bool)

  /**
   * `analyze_errors` on an attempt and a topic set: no attempt or no questions gives no
   * errors and changes nothing; too few answers raises after the earlier errors have
   * replaced the topic set; otherwise every wrong answer is listed, the topic set is the
   * last error's topic alone (untouched without errors), and the student is saved.
   */
  function Analyze(attempt: Option<Attempt>, topics: Option<set<string>>): (a: Analysis)
    ensures attempt.None? || attempt.value.exam.questions == [] ==> a == Analysis(Ok([]), topics, false)
    ensures a.saves <==> attempt.Some? && attempt.value.exam.questions != [] && a.errors.Ok?
    ensures a.errors.Err? <==>
              attempt.Some? && attempt.value.exam.questions != [] && |attempt.value.answers| < |attempt.value.exam.questions|
    ensures a.saves ==>
              |a.errors.value| + Score(attempt.value) == |attempt.value.exam.questions|
    ensures a.errors.Ok? && a.errors.value != [] ==> a.topics == Some({a.errors.value[|a.errors.value| - 1].topic})
    ensures a.errors == Ok([]) ==> a.topics == topics
  {
    if attempt.None? || attempt.value.exam.questions == [] then Analysis(Ok([]), topics, false)
    else
      var qs, answers := attempt.value.exam.questions, attempt.value.answers;
      if |answers| < |qs| then
        Analysis(Err(IndexOutOfRange), TopicsAfterErrors(topics, LastErrorTopic(qs, answers, |answers|)), false)
      else
        Analysis(Ok(ErrorsUpTo(qs, answers, |qs|)), TopicsAfterErrors(topics, LastErrorTopic(qs, answers, |qs|)), true)
  }

  /** The test of `analyze_errors`: all answers right gives no error, two wrong answers give two. */
  lemma ErrorsOfTwoQuestionExam(t1: string, p1: string, t2: string, p2: string)
    ensures var qs := [Question(t1, p1, "2"), Question(t2, p2, "2x")];
            |ErrorsUpTo(qs, ["2", "2x"], 2)| == 0 && |ErrorsUpTo(qs, ["1", "2"], 2)| == 2
  {
    var qs := [Question(t1, p1, "2"), Question(t2, p2, "2x")];
    MatchesUpToAll(qs, ["2", "2x"], 2);
    assert "1" != "2" && "2" != "2x";
    MatchesUpToNone(qs, ["1", "2"], 2);
  }

  // ---------------------------------------------------------------------------
  // Studying materials

  /** `discard` guarded by `if self.unexplored_topics`: only a non-empty set loses the topic. */
  function Discard(topics: Option<set<string>>, t: string): Option<set<string>> {
    if topics.Some? && topics.value != {} then Some(topics.value - {t}) else topics
  }

  /** The inner loop of `study_materials` for one error: every material on the error's topic discards it. */
  function StudyError(topics: Option<set<string>>, e: ErrorEntry, ms: seq<MaterialData>): Option<set<string>>
    decreases |ms|
  {
    if ms == [] then topics
    else StudyError(if ms[0].topic == Some(e.topic) then Discard(topics, e.topic) else topics, e, ms[1..])
  }

  /** The outer loop of `study_materials`, over the errors in order. */
  function StudyErrors(topics: Option<set<string>>, es: seq<ErrorEntry>, ms: seq<MaterialData>): Option<set<string>>
    decreases |es|
  {
    if es == [] then topics else StudyErrors(StudyError(topics, es[0], ms), es[1..], ms)
  }

  lemma StudyErrorsStep(topics: Option<set<string>>, es: seq<ErrorEntry>, k: nat, ms: seq<MaterialData>)
    requires k < |es|
    ensures StudyErrors(topics, es[k..], ms) == StudyErrors(StudyError(topics, es[k], ms), es[k + 1..], ms)
  {
    assert es[k..][0] == es[k];
    assert es[k..][1..] == es[k + 1..];
  }

  /** The topics of errors for which some material has a matching topic. */
  function MatchedTopics(es: seq<ErrorEntry>, ms: seq<MaterialData>): set<string> {
    set k, l | 0 <= k < |es| && 0 <= l < |ms| && ms[l].topic == Some(es[k].topic) :: es[k].topic
  }

  lemma {:induction false} StudyErrorEffect(s: set<string>, e: ErrorEntry, ms: seq<MaterialData>)
    ensures StudyError(Some(s), e, ms) ==
            Some(if exists l :: 0 <= l < |ms| && ms[l].topic == Some(e.topic) then s - {e.topic} else s)
    ensures StudyError(None, e, ms) == None
    decreases |ms|
  {
    if ms != [] {
      var next := if ms[0].topic == Some(e.topic) then s - {e.topic} else s;
      if s == {} {
        assert s - {e.topic} == s;
      }
      assert Discard(Some(s), e.topic) == Some(s - {e.topic});
      StudyErrorEffect(next, e, ms[1..]);
      StudyErrorEffect(s, e, ms[1..]);
      if ms[0].topic == Some(e.topic) {
        assert next - {e.topic} == next;
      } else {
        forall l | 0 <= l < |ms| - 1
          ensures ms[1..][l] == ms[l + 1]
        {
        }
      }
    }
  }

  /**
   * Studying removes from the topic set exactly the error topics some material covers, and
   * an absent set stays absent.
   */
  lemma {:induction false} StudyErrorsEffect(topics: Option<set<string>>, es: seq<ErrorEntry>, ms: seq<MaterialData>)
    ensures StudyErrors(topics, es, ms) ==
            if topics.None? then None else Some(topics.value - MatchedTopics(es, ms))
    decreases |es|
  {
    if es != [] {
      if topics.Some? {
        StudyErrorEffect(topics.value, es[0], ms);
      } else {
        StudyErrorEffect({}, es[0], ms);
      }
      var next := StudyError(topics, es[0], ms);
      StudyErrorsEffect(next, es[1..], ms);
      if topics.Some? {
        var t0 := es[0].topic;
        var head := set l | 0 <= l < |ms| && ms[l].topic == Some(t0) :: t0;
        if exists l :: 0 <= l < |ms| && ms[l].topic == Some(t0) {
          var l :| 0 <= l < |ms| && ms[l].topic == Some(t0);
          assert t0 in head;
          assert head == {t0};
          assert next == Some(topics.value - head);
        } else {
          assert head == {};
          assert topics.value - head == topics.value;
          assert next == Some(topics.value - head);
        }
        var rest := MatchedTopics(es[1..], ms);
        assert topics.value - head - rest == topics.value - (head + rest);
        assert MatchedTopics(es, ms) == head + rest by {
          forall t | t in MatchedTopics(es, ms)
            ensures t in head + MatchedTopics(es[1..], ms)
          {
            var k, l :| 0 <= k < |es| && 0 <= l < |ms| && ms[l].topic == Some(es[k].topic) && t == es[k].topic;
            if k > 0 {
              assert es[1..][k - 1] == es[k];
            }
          }
          forall t | t in MatchedTopics(es[1..], ms)
            ensures t in MatchedTopics(es, ms)
          {
            var k, l :| 0 <= k < |es[1..]| && 0 <= l < |ms| && ms[l].topic == Some(es[1..][k].topic) && t == es[1..][k].topic;
            assert es[k + 1] == es[1..][k];
          }
        }
      }
    } else {
      if topics.Some? {
        assert MatchedTopics(es, ms) == {};
        assert topics.value - {} == topics.value;
      }
    }
  }
}
