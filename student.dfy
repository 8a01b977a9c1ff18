/**
 * Students of the tutoring application (`LR1/entities/student.py`): identity, the last exam
 * attempt, the recommended materials and the topics still to study, with the operations that
 * analyse the attempt's errors, study materials, retake the exam and enrol a student.
 */
module Students {
  import opened Wrappers
  import opened Text
  import opened JsonData
  import opened Catalogue
  import opened Ordering
  import opened Exams
  import opened Attempts
  import opened Materials
  import opened Answering
  import opened Retakes
  import opened ErrorAnalysis
  import opened StudentRecords

  // ---------------------------------------------------------------------------
  // The Student object

  class Student {
    var id: Option<string>
    var lastName: Option<string>
    var firstName: Option<string>
    var examResult: Option<Attempt>
    var materials: Option<seq<MaterialData>>
    var unexploredTopics: Option<set<string>>

    /** `Student(id)`: everything else absent. */
    constructor(id: Option<string>)
      ensures Data() == StudentData(id, None, None, None, None, None)
    {
      this.id := id;
      lastName, firstName, examResult, materials, unexploredTopics := None, None, None, None, None;
    }

    /** The object `from_dict` builds. */
    constructor FromData(d: StudentData)
      ensures Data() == d
    {
      id, lastName, firstName := d.id, d.lastName, d.firstName;
      examResult, materials, unexploredTopics := d.examResult, d.materials, d.unexploredTopics;
    }

    function Data(): StudentData
      reads this
    {
      StudentData(id, lastName, firstName, examResult, materials, unexploredTopics)
    }

    /** `save`: the students file with this student's `to_dict` under its id. */
    method Save(store: Store)
      modifies store`students
      ensures store.students == SaveEntry(old(store.students), JsonKey(id), StudentToJson(Data()))
    {
      store.students := SaveEntry(store.students, JsonKey(id), StudentToJson(Data()));
    }

    /** `delete`: the id's entry removed when present; a `None` id is never a key of the file. */
    method Delete(store: Store)
      modifies store`students
      ensures store.students == (if id.None? then old(store.students) else DeleteEntry(old(store.students), id.value))
    {
      if id.Some? {
        store.students := DeleteEntry(store.students, id.value);
      }
    }

    /** `analyze_errors`, as `Analyze` describes it; the saved record holds the new topic set. */
    method AnalyzeErrors(store: Store) returns (r: Result<seq<ErrorEntry>, AnalysisError>)
      modifies this`unexploredTopics, store`students
      ensures var a := Analyze(old(examResult), old(unexploredTopics));
              r == a.errors && unexploredTopics == a.topics &&
              store.students == (if a.saves then SaveEntry(old(store.students), JsonKey(id), StudentToJson(Data()))
                                 else old(store.students))
    {
      if examResult.None? || examResult.value.exam.questions == [] {
        return Ok([]);
      }
      var r0 := ScanAnswers(examResult.value.exam.questions, examResult.value.answers);
      r := r0;
      if r.Ok? {
        Save(store);
      }
    }

    /**
     * The loop of `analyze_errors`: each wrong answer is recorded and replaces the topic set
     * by its own topic; the first missing answer raises, after the earlier errors.
     */
    method ScanAnswers(qs: seq<Question>, answers: seq<string>) returns (r: Result<seq<ErrorEntry>, AnalysisError>)
      modifies this`unexploredTopics
      ensures var n := if |answers| < |qs| then |answers| else |qs|;
              unexploredTopics == TopicsAfterErrors(old(unexploredTopics), LastErrorTopic(qs, answers, n)) &&
              r == (if |answers| < |qs| then Err(IndexOutOfRange) else Ok(ErrorsUpTo(qs, answers, |qs|)))
    {
      var errors := [];
      var i := 0;
      while i < |qs|
        invariant i <= |qs| && i <= |answers|
        invariant errors == ErrorsUpTo(qs, answers, i)
        invariant unexploredTopics == TopicsAfterErrors(old(unexploredTopics), LastErrorTopic(qs, answers, i))
      {
        if i >= |answers| {
          return Err(IndexOutOfRange);
        }
        ErrorStep(qs, answers, i);
        if answers[i] != qs[i].answer {
          errors := errors + [ErrorAt(qs, answers, i)];
          unexploredTopics := Some({qs[i].topic});
        }
        i := i + 1;
      }
      return Ok(errors);
    }

    /**
     * `study_materials`: with no materials nothing happens. Otherwise the errors are analysed
     * (which saves the student with the analysed topic set), and then, for each error in order
     * and each material in order, a material on the error's topic discards that topic from a
     * non-empty topic set, without saving again. When the analysis raises, the study stops there.
     */
    method StudyMaterials(store: Store)
      modifies this`unexploredTopics, store`students
      ensures old(materials).None? || old(materials) == Some([]) ==>
                unexploredTopics == old(unexploredTopics) && store.students == old(store.students)
      ensures old(materials).Some? && old(materials) != Some([]) ==>
                var a := Analyze(old(examResult), old(unexploredTopics));
                unexploredTopics == (if a.errors.Ok? then StudyErrors(a.topics, a.errors.value, materials.value) else a.topics)
                && store.students == (if a.saves then SaveEntry(old(store.students), JsonKey(id), StudentToJson(Data().(unexploredTopics := a.topics)))
                                      else old(store.students))
    {
      if materials.None? || materials.value == [] {
        return;
      }
      var analysis := AnalyzeErrors(store);
      if analysis.Err? {
        return;
      }
      StudyAllErrors(analysis.value, materials.value);
    }

    /** The outer loop of `study_materials`, over the errors in order. */
    method StudyAllErrors(errors: seq<ErrorEntry>, ms: seq<MaterialData>)
      modifies this`unexploredTopics
      ensures unexploredTopics == StudyErrors(old(unexploredTopics), errors, ms)
    {
      var k := 0;
      while k < |errors|
        invariant k <= |errors|
        invariant StudyErrors(unexploredTopics, errors[k..], ms) == StudyErrors(old(unexploredTopics), errors, ms)
      {
        StudyErrorsStep(unexploredTopics, errors, k, ms);
        StudyOneError(errors[k], ms);
        k := k + 1;
      }
    }

    /** The inner loop of `study_materials`: every material on the error's topic discards it. */
    method StudyOneError(e: ErrorEntry, ms: seq<MaterialData>)
      modifies this`unexploredTopics
      ensures unexploredTopics == StudyError(old(unexploredTopics), e, ms)
    {
      var l := 0;
      while l < |ms|
        invariant l <= |ms|
        invariant StudyError(unexploredTopics, e, ms[l..]) == StudyError(old(unexploredTopics), e, ms)
      {
        assert ms[l..][1..] == ms[l + 1..];
        if ms[l].topic == Some(e.topic) {
          if unexploredTopics.Some? && unexploredTopics.value != {} {
            unexploredTopics := Some(unexploredTopics.value - {e.topic});
          }
        }
        l := l + 1;
      }
    }

    /**
     * `re_passing_the_exam`: without an attempt or questions nothing is read. Otherwise one
     * non-blank answer is read per question; a blank answer or the end of the input abandons
     * the retake and keeps the old attempt. A completed retake replaces the attempt, whatever
     * the answers, without saving, and reports a pass exactly when every answer is correct.
     */
    method ReExam(input: seq<string>) returns (rest: seq<string>, passed: Option<bool>)
      modifies this`examResult
      ensures old(examResult).None? || old(examResult).value.exam.questions == [] ==>
                rest == input && passed.None? && examResult == old(examResult)
      ensures old(examResult).Some? && old(examResult).value.exam.questions != [] ==>
                var exam := old(examResult).value.exam;
                var a := ReadAnswers(|exam.questions|, input);
                rest == a.rest &&
                if a.ok then
                  examResult == Some(Attempt(exam, a.answers))
                  && passed == Some(forall i :: 0 <= i < |exam.questions| ==> a.answers[i] == exam.questions[i].answer)
                else
                  examResult == old(examResult) && passed.None?
    {
      if examResult.None? || examResult.value.exam.questions == [] {
        return input, None;
      }
      var exam := examResult.value.exam;
      var answers, next, ok := ReadAnswerLines(|exam.questions|, input);
      if !ok {
        return next, None;
      }
      var allCorrect := AllCorrect(exam.questions, answers);
      examResult := Some(Attempt(exam, answers));
      return next, Some(allCorrect);
    }

    /**
     * `practice_test` on the questions drawn for it (`random.sample` in the source, a
     * parameter here): one non-blank answer is read per drawn question and compared with the
     * stripped correct answer. Returns the number of correct answers, or nothing when there is
     * no attempt to practise on or the test is abandoned. Nothing of the student changes.
     */
    method PracticeTest(sample: seq<Question>, input: seq<string>) returns (rest: seq<string>, correct: Option<nat>)
      ensures examResult.None? || examResult.value.exam.questions == [] ==> rest == input && correct.None?
      ensures examResult.Some? && examResult.value.exam.questions != [] ==>
                var a := ReadAnswers(|sample|, input);
                rest == a.rest && correct == (if a.ok then Some(MatchesUpTo(StrippedKeys(sample), a.answers, |sample|)) else None)
      ensures correct.Some? ==> correct.value <= |sample|
    {
      if examResult.None? || examResult.value.exam.questions == [] {
        return input, None;
      }
      var answers, next, ok := ReadAnswerLines(|sample|, input);
      if !ok {
        return next, None;
      }
      var count := CountCorrect(StrippedKeys(sample), answers);
      return next, Some(count);
    }

    /** `set_exam_result`, as `ExamResultFor` describes it. */
    method SetExamResult(store: Store, input: seq<string>) returns (rest: seq<string>, result: Option<Attempt>)
      ensures Sitting(result, rest) == ExamResultFor(store.exams, input)
    {
      if input == [] {
        return [], None;
      }
      var subject := Title(Strip(input[0]));
      if subject == "" {
        return input[1..], None;
      }
      var exam := LoadExam(store.exams, subject);
      if exam.None? {
        return input[1..], None;
      }
      var answers, next, ok := ReadAnswerLines(|exam.value.questions|, input[1..]);
      if !ok {
        return next, None;
      }
      return next, Some(Attempt(exam.value, answers));
    }

    /** `set_info`, step by step as `Enrol` describes it. */
    method SetInfo(store: Store, input: seq<string>) returns (rest: seq<string>)
      modifies this, store`students
      ensures var e := Enrol(old(Data()), LoadAll(old(store.students)).Keys, store.exams, input);
              Data() == e.data && rest == e.rest &&
              store.students == (if e.saved then SaveEntry(old(store.students), Strip(input[0]), StudentToJson(e.data))
                                 else old(store.students))
    {
      if input == [] {
        return [];
      }
      id := Some(Strip(input[0]));
      if id.value == "" || !IsDigits(id.value) || IdExist(store.students, id.value) {
        return input[1..];
      }
      rest := SetLastName(store, input[1..]);
    }

    /** `set_info` after an accepted id: the last name, as `EnrolLastName` describes it. */
    method SetLastName(store: Store, input: seq<string>) returns (rest: seq<string>)
      requires id.Some?
      modifies this, store`students
      ensures var e := EnrolLastName(old(Data()), store.exams, input);
              Data() == e.data && rest == e.rest &&
              store.students == (if e.saved then SaveEntry(old(store.students), old(id).value, StudentToJson(e.data))
                                 else old(store.students))
    {
      if input == [] {
        return [];
      }
      lastName := Some(Title(Strip(input[0])));
      if lastName.value == "" || !IsAlpha(lastName.value) {
        return input[1..];
      }
      rest := SetFirstName(store, input[1..]);
    }

    /** `set_info` after an accepted id and last name: the first name and the exam result, as `EnrolFirstName` describes them. */
    method SetFirstName(store: Store, input: seq<string>) returns (rest: seq<string>)
      requires id.Some?
      modifies this, store`students
      ensures var e := EnrolFirstName(old(Data()), store.exams, input);
              Data() == e.data && rest == e.rest &&
              store.students == (if e.saved then SaveEntry(old(store.students), old(id).value, StudentToJson(e.data))
                                 else old(store.students))
    {
      ghost var d0 := Data();
      if input == [] {
        return [];
      }
      firstName := Some(Title(Strip(input[0])));
      if firstName.value == "" || !IsAlpha(firstName.value) {
        return input[1..];
      }
      rest, examResult := SetExamResult(store, input[1..]);
      if examResult.None? {
        return;
      }
      materials, unexploredTopics := Some([]), Some({});
      assert EnrolFirstName(d0, store.exams, input) == Enrolment(Data(), true, rest);
      Save(store);
    }
  }
}
