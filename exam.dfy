/**
 * Exams of the tutoring application (`LR1/entities/exam.py`): a subject and an ordered list of
 * (topic, question, correct answer) triples, stored in the exams file under the subject.
 */
module Exams {
  import opened Wrappers
  import opened Text
  import opened JsonData
  import opened Catalogue
  import opened Sequences

  datatype Question = Question(topic: string, prompt: string, answer: string)

  /** The value an `Exam` object holds. */
  datatype ExamData = ExamData(subject: Option<string>, questions: seq<Question>)

  // ---------------------------------------------------------------------------
  // to_dict / from_dict

  function QuestionToJson(q: Question): Json {
    Arr([Str(q.topic), Str(q.prompt), Str(q.answer)])
  }

  /** A stored question must be a list of exactly three strings. */
  function QuestionFromJson(j: Json): (r: Option<Question>)
    ensures r.Some? ==> QuestionToJson(r.value) == j
  {
    if j.Arr? && |j.items| == 3 && j.items[0].Str? && j.items[1].Str? && j.items[2].Str? then
      Some(Question(j.items[0].str, j.items[1].str, j.items[2].str))
    else None
  }

  function QuestionsToJson(qs: seq<Question>): (j: Json)
    ensures j.Arr? && |j.items| == |qs|
    ensures forall i :: 0 <= i < |qs| ==> j.items[i] == QuestionToJson(qs[i])
  {
    Arr(seq(|qs|, i requires 0 <= i < |qs| => QuestionToJson(qs[i])))
  }

  /** The questions of a stored list, in order; `None` when one of them is not a triple of strings. */
  function QuestionsFromJson(items: seq<Json>): (r: Option<seq<Question>>)
    ensures r.Some? ==> |r.value| == |items|
    ensures r.Some? ==> forall i :: 0 <= i < |items| ==> QuestionToJson(r.value[i]) == items[i]
    ensures r.None? ==> exists i :: 0 <= i < |items| && QuestionFromJson(items[i]).None?
  {
    if items == [] then Some([])
    else
      var q := QuestionFromJson(items[0]);
      var rest := QuestionsFromJson(items[1..]);
      if q.None? then None
      else if rest.None? then
        ghost var i :| 0 <= i < |items[1..]| && QuestionFromJson(items[1..][i]).None?;
        assert QuestionFromJson(items[i + 1]).None?;
        None
      else Some([q.value] + rest.value)
  }

  /** `Exam.to_dict`. */
  function ExamToJson(e: ExamData): (j: Json)
    ensures j.Obj? && j.fields.Keys == {"subject", "questions"}
  {
    Obj(map["subject" := OptStr(e.subject), "questions" := QuestionsToJson(e.questions)])
  }

  /**
   * `Exam.from_dict`: the subject is read with `get` (absent means `None`) and the questions
   * likewise (absent means no questions).
   */
  function ExamFromJson(j: Json): (r: Result<ExamData, DecodeError>)
    ensures r.Ok? ==> j.Obj?
    ensures r.Ok? && "questions" !in j.fields ==> r.value.questions == []
    ensures r.Ok? && "subject" !in j.fields ==> r.value.subject == None
    ensures r.Ok? && "subject" in j.fields ==> OptStr(r.value.subject) == j.fields["subject"]
  {
    if !j.Obj? then Err(WrongType)
    else
      var subject := if "subject" in j.fields then ReadOptStr(j.fields["subject"]) else Some(None);
      var questions := if "questions" in j.fields then
                         (if j.fields["questions"].Arr? then QuestionsFromJson(j.fields["questions"].items) else None)
                       else Some([]);
      if subject.None? || questions.None? then Err(WrongType)
      else Ok(ExamData(subject.value, questions.value))
  }

  lemma {:induction false} QuestionsRoundTrip(qs: seq<Question>)
    ensures QuestionsFromJson(QuestionsToJson(qs).items) == Some(qs)
  {
    if qs != [] {
      assert QuestionsToJson(qs).items[1..] == QuestionsToJson(qs[1..]).items;
      QuestionsRoundTrip(qs[1..]);
      assert [qs[0]] + qs[1..] == qs;
    }
  }

  /** `from_dict(to_dict(e))` has the same subject and the same question triples in the same order. */
  lemma ExamRoundTrip(e: ExamData)
    ensures ExamFromJson(ExamToJson(e)) == Ok(e)
  {
    QuestionsRoundTrip(e.questions);
  }

  /** `Exam.load`: `None` for an unknown subject or an entry `from_dict` cannot decode. */
  function LoadExam(f: JsonFile, subject: string): (r: Option<ExamData>)
    ensures subject !in LoadAll(f) ==> r.None?
    ensures subject in LoadAll(f) ==> (r.Some? <==> ExamFromJson(LoadAll(f)[subject]).Ok?)
    ensures r.Some? ==> ExamFromJson(LoadAll(f)[subject]) == Ok(r.value)
  {
    if subject !in LoadAll(f) then None
    else
      var d := ExamFromJson(LoadAll(f)[subject]);
      if d.Ok? then Some(d.value) else None
  }

  /** An exam that was saved loads back unchanged. */
  lemma LoadSavedExam(f: JsonFile, e: ExamData)
    ensures LoadExam(SaveEntry(f, JsonKey(e.subject), ExamToJson(e)), JsonKey(e.subject)) == Some(e)
  {
    ExamRoundTrip(e);
  }

  // ---------------------------------------------------------------------------
  // Authoring an exam (set_info)

  /** The questions typed in by the teacher, the unread input, and whether the loop ended normally. */
  datatype Authoring = Authoring(questions: seq<Question>, rest: seq<string>, complete: bool)

  /**
   * One pass of the entry loop's body: the triple it appends (if any), the unread input,
   * whether the loop stops, and whether it stopped normally (a reply other than "да").
   */
  datatype Entry = Entry(question: Option<Question>, rest: seq<string>, stop: bool, complete: bool)

  predicate WellFormed(q: Question) {
    q.topic != "" && q.prompt != "" && q.answer != ""
  }

  /**
   * The body of the entry loop of `set_info`: a blank topic, question or answer (after
   * `strip`) restarts the entry; after a complete triple the loop continues only if the reply,
   * stripped and lower-cased, is "да". Running out of input raises and stops the loop abnormally.
   */
  function EntryStep(input: seq<string>): (e: Entry)
    ensures IsSuffix(e.rest, input)
    ensures !e.stop ==> |e.rest| < |input|
    ensures e.question.Some? ==> WellFormed(e.question.value)
    ensures e.complete ==> e.stop && e.question.Some?
    ensures e.stop && !e.complete ==> e.rest == []
  {
    if |input| == 0 then Entry(None, [], true, false)
    else if Strip(input[0]) == "" then Entry(None, input[1..], false, false)
    else if |input| == 1 then Entry(None, [], true, false)
    else if Strip(input[1]) == "" then Entry(None, input[2..], false, false)
    else if |input| == 2 then Entry(None, [], true, false)
    else if Strip(input[2]) == "" then Entry(None, input[3..], false, false)
    else
      var q := Some(Question(Strip(input[0]), Strip(input[1]), Strip(input[2])));
      if |input| == 3 then Entry(q, [], true, false)
      else if Lower(Strip(input[3])) != "да" then Entry(q, input[4..], true, true)
      else Entry(q, input[4..], false, false)
  }

  function Appended(e: Entry): seq<Question> {
    if e.question.Some? then [e.question.value] else []
  }

  /** The loop's outcome `a` once `qs` have already been appended. */
  function After(qs: seq<Question>, a: Authoring): Authoring {
    Authoring(qs + a.questions, a.rest, a.complete)
  }

  lemma AfterAppend(qs1: seq<Question>, qs2: seq<Question>, a: Authoring)
    ensures After(qs1 + qs2, a) == After(qs1, After(qs2, a))
  {
    assert (qs1 + qs2) + a.questions == qs1 + (qs2 + a.questions);
  }

  /**
   * The whole entry loop: the triples appended, in entry order (the ones appended before the
   * input ran out included), the unread input, and whether the loop ended normally.
   */
  function ReadQuestions(input: seq<string>): (a: Authoring)
    ensures IsSuffix(a.rest, input)
    ensures forall i :: 0 <= i < |a.questions| ==> WellFormed(a.questions[i])
    ensures !a.complete ==> a.rest == []
    decreases |input|
  {
    var e := EntryStep(input);
    if e.stop then Authoring(Appended(e), e.rest, e.complete)
    else
      After(Appended(e), ReadQuestions(e.rest))
  }

  /** A triple whose three lines are typed without surrounding blanks. */
  predicate TypedAsIs(q: Question) {
    Trimmed(q.topic) && Trimmed(q.prompt) && Trimmed(q.answer)
  }

  /** One triple followed by a reply other than "да" ends the loop normally with that triple. */
  lemma ReadOneQuestion(q: Question, no: string)
    requires TypedAsIs(q) && Lower(Strip(no)) != "да"
    ensures ReadQuestions([q.topic, q.prompt, q.answer, no]) == Authoring([q], [], true)
  {
    StripUnchanged(q.topic);
    StripUnchanged(q.prompt);
    StripUnchanged(q.answer);
  }

  /** One triple followed by a reply that reads "да" appends that triple and carries on. */
  lemma ReadAndContinue(q: Question, yes: string, rest: seq<string>)
    requires TypedAsIs(q) && Lower(Strip(yes)) == "да"
    ensures ReadQuestions([q.topic, q.prompt, q.answer, yes] + rest) == After([q], ReadQuestions(rest))
  {
    var input := [q.topic, q.prompt, q.answer, yes] + rest;
    StripUnchanged(q.topic);
    StripUnchanged(q.prompt);
    StripUnchanged(q.answer);
    assert input[4..] == rest;
    assert EntryStep(input) == Entry(Some(q), rest, false, false);
  }

  /** One pass of the entry loop's body, reading the lines it needs from `input`. */
  method ReadEntry(input: seq<string>) returns (q: Option<Question>, rest: seq<string>, stop: bool, complete: bool)
    ensures Entry(q, rest, stop, complete) == EntryStep(input)
  {
    q, rest, stop, complete := None, [], true, false;
    if |input| == 0 {
      return;
    }
    var topic := Strip(input[0]);
    if topic == "" {
      rest, stop := input[1..], false;
      return;
    }
    if |input| == 1 {
      return;
    }
    var prompt := Strip(input[1]);
    if prompt == "" {
      rest, stop := input[2..], false;
      return;
    }
    if |input| == 2 {
      return;
    }
    var answer := Strip(input[2]);
    if answer == "" {
      rest, stop := input[3..], false;
      return;
    }
    q := Some(Question(topic, prompt, answer));
    if |input| == 3 {
      return;
    }
    var another := Lower(Strip(input[3]));
    rest := input[4..];
    if another != "да" {
      complete := true;
    } else {
      stop := false;
    }
  }

  /** An exam object: `subject` and `questions` are the fields `set_info` assigns. */
  class Exam {
    var subject: Option<string>
    var questions: seq<Question>

    constructor(subject: Option<string>)
      ensures this.subject == subject && questions == []
    {
      this.subject := subject;
      questions := [];
    }

    function Data(): ExamData
      reads this
    {
      ExamData(subject, questions)
    }

    /** `save`: the exams file with this exam's `to_dict` under its subject. */
    method Save(store: Store)
      modifies store`exams
      ensures store.exams == SaveEntry(old(store.exams), JsonKey(subject), ExamToJson(Data()))
    {
      store.exams := SaveEntry(store.exams, JsonKey(subject), ExamToJson(Data()));
    }

    /** `delete`: the subject's entry removed when present; a `None` subject is never a key of the file. */
    method Delete(store: Store)
      modifies store`exams
      ensures store.exams == (if subject.None? then old(store.exams) else DeleteEntry(old(store.exams), subject.value))
    {
      if subject.Some? {
        store.exams := DeleteEntry(store.exams, subject.value);
      }
    }

    /**
     * `set_info`: reads the subject (stripped); a blank subject or one already in the exams
     * file ends the dialogue with nothing saved. Otherwise the question list is restarted and
     * filled by the entry loop, and the exam is saved when that loop ends normally.
     */
    method SetInfo(store: Store, input: seq<string>) returns (rest: seq<string>)
      modifies this, store`exams
      ensures IsSuffix(rest, input)
      ensures input == [] ==> rest == [] && subject == old(subject) && questions == old(questions)
                              && store.exams == old(store.exams)
      ensures input != [] ==> subject == Some(Strip(input[0]))
      ensures input != [] && (Strip(input[0]) == "" || Strip(input[0]) in LoadAll(old(store.exams))) ==>
                rest == input[1..] && questions == old(questions) && store.exams == old(store.exams)
      ensures input != [] && Strip(input[0]) != "" && Strip(input[0]) !in LoadAll(old(store.exams)) ==>
                var a := ReadQuestions(input[1..]);
                questions == a.questions && rest == a.rest &&
                store.exams == (if a.complete then SaveEntry(old(store.exams), Strip(input[0]), ExamToJson(Data()))
                                else old(store.exams))
    {
      if input == [] {
        return [];
      }
      var name := Strip(input[0]);
      subject := Some(name);
      if name == "" || name in LoadAll(store.exams) {
        return input[1..];
      }
      questions := [];
      var cur := input[1..];
      var complete := false;
      var done := false;
      assert After([], ReadQuestions(cur)) == ReadQuestions(cur);
      while !done
        invariant |cur| <= |input| - 1
        invariant subject == Some(name) && store.exams == old(store.exams)
        invariant !done ==> ReadQuestions(input[1..]) == After(questions, ReadQuestions(cur))
        invariant done ==> ReadQuestions(input[1..]) == Authoring(questions, cur, complete)
        decreases !done, |cur|
      {
        ghost var before, whole := questions, ReadQuestions(cur);
        var q, next, stop, ok := ReadEntry(cur);
        if q.Some? {
          questions := questions + [q.value];
        }
        assert questions == before + Appended(Entry(q, next, stop, ok));
        cur, done, complete := next, stop, ok;
        if !done {
          assert whole == After(Appended(Entry(q, next, stop, ok)), ReadQuestions(cur));
          AfterAppend(before, Appended(Entry(q, next, stop, ok)), ReadQuestions(cur));
        }
      }
      assert IsSuffix(cur, input[1..]);
      SuffixOfTail(cur, input);
      if complete {
        Save(store);
      }
      return cur;
    }
  }
}
