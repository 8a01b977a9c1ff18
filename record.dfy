/**
 * The record a student of `LR1/entities/student.py` is stored as: its fields, the
 * `to_dict`/`from_dict` codec, loading by id, and the `set_info` enrolment dialogue as a
 * function of the console input.
 */
module StudentRecords {
  import opened Wrappers
  import opened Text
  import opened JsonData
  import opened Catalogue
  import opened Sequences
  import opened Ordering
  import opened Exams
  import opened Attempts
  import opened Materials
  import opened Answering

  /** The value a `Student` object holds. */
  datatype StudentData = StudentData(
    id: Option<string>,
    lastName: Option<string>,
    firstName: Option<string>,
    examResult: Option<Attempt>,
    materials: Option<seq<MaterialData>>,
    unexploredTopics: Option<set<string>>)

  // ---------------------------------------------------------------------------
  // to_dict / from_dict

  function MaterialsToJson(ms: seq<MaterialData>): (j: Json)
    ensures j.Arr? && |j.items| == |ms|
    ensures forall i :: 0 <= i < |ms| ==> j.items[i] == MaterialToJson(ms[i])
  {
    Arr(seq(|ms|, i requires 0 <= i < |ms| => MaterialToJson(ms[i])))
  }

  /** The materials of a stored list, in order, or the error of the first one that cannot be decoded. */
  function MaterialsFromJson(items: seq<Json>): (r: Result<seq<MaterialData>, DecodeError>)
    ensures r.Ok? ==> |r.value| == |items|
    ensures r.Ok? ==> forall i :: 0 <= i < |items| ==> MaterialFromJson(items[i]) == Ok(r.value[i])
  {
    if items == [] then Ok([])
    else
      var m := MaterialFromJson(items[0]);
      if m.Err? then Err(m.error)
      else
        var rest := MaterialsFromJson(items[1..]);
        if rest.Err? then rest else Ok([m.value] + rest.value)
  }

  lemma {:induction false} MaterialsRoundTrip(ms: seq<MaterialData>)
    ensures MaterialsFromJson(MaterialsToJson(ms).items) == Ok(ms)
  {
    if ms != [] {
      MaterialRoundTrip(ms[0]);
      assert MaterialsToJson(ms).items[1..] == MaterialsToJson(ms[1..]).items;
      MaterialsRoundTrip(ms[1..]);
      assert [ms[0]] + ms[1..] == ms;
    }
  }

  /** The six keys of a student record are distinct. */
  lemma StudentKeysDistinct()
    ensures "id" != "last_name" && "id" != "first_name" && "id" != "exam_result" &&
            "id" != "materials" && "id" != "unexplored_topics" && "last_name" != "first_name" &&
            "last_name" != "exam_result" && "last_name" != "materials" && "last_name" != "unexplored_topics" &&
            "first_name" != "exam_result" && "first_name" != "materials" && "first_name" != "unexplored_topics" &&
            "exam_result" != "materials" && "exam_result" != "unexplored_topics" && "materials" != "unexplored_topics"
  {
  }

  /**
   * `Student.to_dict`: no attempt is written as `null`, and so are an absent or empty
   * materials list and an absent or empty topic set; the topics are written as a list in
   * ascending order.
   */
  function StudentToJson(d: StudentData): (j: Json)
    ensures j.Obj?
    ensures j.fields.Keys == {"id", "last_name", "first_name", "exam_result", "materials", "unexplored_topics"}
    ensures j.fields["exam_result"] == Null <==> d.examResult.None?
    ensures j.fields["materials"] == Null <==> d.materials.None? || d.materials == Some([])
    ensures j.fields["unexplored_topics"] == Null <==> d.unexploredTopics.None? || d.unexploredTopics == Some({})
  {
    var topics := if d.unexploredTopics.Some? && d.unexploredTopics.value != {} then
                    StrList(SortedStrings(d.unexploredTopics.value))
                  else Null;
    Obj(map[
      "id" := OptStr(d.id),
      "last_name" := OptStr(d.lastName),
      "first_name" := OptStr(d.firstName),
      "exam_result" := if d.examResult.Some? then AttemptToJson(d.examResult.value) else Null,
      "materials" := if d.materials.Some? && d.materials.value != [] then MaterialsToJson(d.materials.value) else Null,
      "unexplored_topics" := topics])
  }

  /** What `to_dict` writes under "exam_result". */
  lemma StudentToJsonAttempt(d: StudentData)
    ensures "exam_result" in StudentToJson(d).fields
    ensures StudentToJson(d).fields["exam_result"] == (if d.examResult.Some? then AttemptToJson(d.examResult.value) else Null)
  {
    StudentKeysDistinct();
  }

  /** What `to_dict` writes under "materials". */
  lemma StudentToJsonMaterials(d: StudentData)
    ensures "materials" in StudentToJson(d).fields
    ensures StudentToJson(d).fields["materials"] ==
            (if d.materials.Some? && d.materials.value != [] then MaterialsToJson(d.materials.value) else Null)
  {
    StudentKeysDistinct();
  }

  /** What `to_dict` writes under "unexplored_topics". */
  lemma StudentToJsonTopics(d: StudentData)
    ensures "unexplored_topics" in StudentToJson(d).fields
    ensures StudentToJson(d).fields["unexplored_topics"] ==
            (if d.unexploredTopics.Some? && d.unexploredTopics.value != {} then StrList(SortedStrings(d.unexploredTopics.value)) else Null)
  {
  }

  /** The value stored under `key`, if present and truthy (`key in data and data[key]`). */
  function TruthyField(j: Json, key: string): (r: Option<Json>)
    requires j.Obj?
    ensures r.Some? <==> key in j.fields && Truthy(j.fields[key])
    ensures r.Some? ==> r.value == j.fields[key]
  {
    if key in j.fields && Truthy(j.fields[key]) then Some(j.fields[key]) else None
  }

  /** An optional string field read with `get`: absent means `None`. */
  function GetOptStr(j: Json, key: string): Option<Option<string>>
    requires j.Obj?
  {
    if key in j.fields then ReadOptStr(j.fields[key]) else Some(None)
  }

  /** The attempt, decoded only when the field is present and truthy. */
  function AttemptField(j: Json): (r: Result<Option<Attempt>, DecodeError>)
    requires j.Obj?
    ensures r.Ok? ==> (r.value.None? <==> TruthyField(j, "exam_result").None?)
  {
    var exam := TruthyField(j, "exam_result");
    if exam.None? then Ok(None)
    else
      var attempt := AttemptFromJson(exam.value);
      if attempt.Err? then Err(attempt.error) else Ok(Some(attempt.value))
  }

  /** The materials, decoded only when the field is present and truthy; a list is required. */
  function MaterialsField(j: Json): (r: Result<Option<seq<MaterialData>>, DecodeError>)
    requires j.Obj?
    ensures r.Ok? && r.value.Some? ==> r.value.value != []
  {
    var ms := TruthyField(j, "materials");
    if ms.None? then Ok(None)
    else if !ms.value.Arr? then Err(WrongType)
    else
      var materials := MaterialsFromJson(ms.value.items);
      if materials.Err? then Err(materials.error) else Ok(Some(materials.value))
  }

  /** The topics, decoded only when the field is present and truthy; a list of strings is required. */
  function TopicsField(j: Json): (r: Result<Option<set<string>>, DecodeError>)
    requires j.Obj?
    ensures r.Ok? && r.value.Some? ==> r.value.value != {}
  {
    var ts := TruthyField(j, "unexplored_topics");
    if ts.None? then Ok(None)
    else
      var topics := ReadStrList(ts.value);
      if topics.None? then Err(WrongType)
      else
        var found := set t | t in topics.value;
        assert |topics.value| == |ts.value.items| > 0;
        assert topics.value[0] in found;
        Ok(Some(found))
  }

  /**
   * `Student.from_dict`: the identity fields are read with `get`; the attempt, the materials
   * and the topics are decoded only when present and truthy, so an empty list or set comes
   * back as absent.
   */
  function StudentFromJson(j: Json): (r: Result<StudentData, DecodeError>)
    ensures r.Ok? ==> j.Obj?
    ensures r.Ok? ==> (r.value.examResult.None? <==> TruthyField(j, "exam_result").None?)
    ensures r.Ok? && r.value.materials.Some? ==> r.value.materials.value != []
    ensures r.Ok? && r.value.unexploredTopics.Some? ==> r.value.unexploredTopics.value != {}
  {
    if !j.Obj? then Err(WrongType)
    else
      var id, last, first := GetOptStr(j, "id"), GetOptStr(j, "last_name"), GetOptStr(j, "first_name");
      if id.None? || last.None? || first.None? then Err(WrongType)
      else
        var attempt := AttemptField(j);
        if attempt.Err? then Err(attempt.error)
        else
          var materials := MaterialsField(j);
          if materials.Err? then Err(materials.error)
          else
            var topics := TopicsField(j);
            if topics.Err? then Err(topics.error)
            else Ok(StudentData(id.value, last.value, first.value, attempt.value, materials.value, topics.value))
  }

  /** What a student looks like after a save and a load: empty materials and topics become absent. */
  function Normalized(d: StudentData): StudentData {
    d.(materials := if d.materials == Some([]) then None else d.materials,
       unexploredTopics := if d.unexploredTopics == Some({}) then None else d.unexploredTopics)
  }

  lemma AttemptFieldRoundTrip(d: StudentData)
    ensures AttemptField(StudentToJson(d)) == Ok(d.examResult)
  {
    StudentToJsonAttempt(d);
    if d.examResult.Some? {
      AttemptRoundTrip(d.examResult.value);
    }
  }

  lemma MaterialsFieldRoundTrip(d: StudentData)
    ensures MaterialsField(StudentToJson(d)) == Ok(Normalized(d).materials)
  {
    StudentToJsonMaterials(d);
    if d.materials.Some? && d.materials.value != [] {
      MaterialsRoundTrip(d.materials.value);
    }
  }

  lemma TopicsFieldRoundTrip(d: StudentData)
    ensures TopicsField(StudentToJson(d)) == Ok(Normalized(d).unexploredTopics)
  {
    StudentToJsonTopics(d);
    var j := StudentToJson(d);
    if d.unexploredTopics.Some? && d.unexploredTopics.value != {} {
      var sorted := SortedStrings(d.unexploredTopics.value);
      ReadStrListOfStrList(sorted);
      assert TruthyField(j, "unexplored_topics") == Some(StrList(sorted));
      assert (set t | t in sorted) == d.unexploredTopics.value;
    } else {
      assert TruthyField(j, "unexplored_topics") == None;
    }
  }

  /**
   * `from_dict(to_dict(s))` keeps the id, the names, the attempt, the materials and the topic
   * set; only an empty materials list or topic set comes back as absent.
   */
  lemma StudentRoundTrip(d: StudentData)
    ensures StudentFromJson(StudentToJson(d)) == Ok(Normalized(d))
  {
    StudentKeysDistinct();
    var j := StudentToJson(d);
    assert GetOptStr(j, "id") == Some(d.id);
    assert GetOptStr(j, "last_name") == Some(d.lastName);
    assert GetOptStr(j, "first_name") == Some(d.firstName);
    AttemptFieldRoundTrip(d);
    MaterialsFieldRoundTrip(d);
    TopicsFieldRoundTrip(d);
  }

  /** `Student.id_exist`: the id is a key of the students file. */
  predicate IdExist(f: JsonFile, id: string) {
    id in LoadAll(f)
  }

  /** `Student.load`: `None` for an unknown id or an entry that cannot be decoded. */
  function LoadStudent(f: JsonFile, id: string): (r: Option<StudentData>)
    ensures !IdExist(f, id) ==> r.None?
    ensures IdExist(f, id) ==> (r.Some? <==> StudentFromJson(LoadAll(f)[id]).Ok?)
    ensures r.Some? ==> StudentFromJson(LoadAll(f)[id]) == Ok(r.value)
  {
    if id !in LoadAll(f) then None
    else
      var d := StudentFromJson(LoadAll(f)[id]);
      if d.Ok? then Some(d.value) else None
  }

  /** A student saved under its id loads back as its normalised self. */
  lemma LoadSavedStudent(f: JsonFile, d: StudentData)
    ensures LoadStudent(SaveEntry(f, JsonKey(d.id), StudentToJson(d)), JsonKey(d.id)) == Some(Normalized(d))
  {
    StudentRoundTrip(d);
  }

  /** The attempt `set_exam_result` produces, if any, and the unread input. */
  datatype Sitting = Sitting(result: Option<Attempt>, rest: seq<string>)

  /**
   * `set_exam_result`: the subject is read, stripped and title-cased; a blank subject or one
   * `Exam.load` cannot find gives no attempt; otherwise one non-blank answer is read per question.
   */
  function ExamResultFor(exams: JsonFile, input: seq<string>): (s: Sitting)
    ensures IsSuffix(s.rest, input)
    ensures s.result.Some? ==> |s.result.value.answers| == |s.result.value.exam.questions|
    ensures s.result.Some? ==> input != [] && LoadExam(exams, Title(Strip(input[0]))) == Some(s.result.value.exam)
  {
    if input == [] then Sitting(None, [])
    else
      var subject := Title(Strip(input[0]));
      var exam := LoadExam(exams, subject);
      if subject == "" || exam.None? then Sitting(None, input[1..])
      else
        var a := ReadAnswers(|exam.value.questions|, input[1..]);
        ReadAnswersRest(|exam.value.questions|, input[1..]);
        Sitting(if a.ok then Some(Attempt(exam.value, a.answers)) else None, a.rest)
  }

  // ---------------------------------------------------------------------------
  // Enrolment (set_info)

  /** The fields after `set_info`, whether it saved the student, and the unread input. */
  datatype Enrolment = Enrolment(data: StudentData, saved: bool, rest: seq<string>)

  /**
   * The `set_info` dialogue: the id (stripped) must be non-blank, all digits and unknown;
   * the last and first names (stripped, title-cased) non-blank and alphabetic; then
   * `set_exam_result` must produce an attempt. Each field is assigned before it is checked.
   * A student who passes everything gets empty materials and topics and is saved.
   */
  function Enrol(d: StudentData, known: set<string>, exams: JsonFile, input: seq<string>): (e: Enrolment)
    ensures IsSuffix(e.rest, input)
  {
    if input == [] then Enrolment(d, false, [])
    else
      var id := Strip(input[0]);
      var d1 := d.(id := Some(id));
      if id == "" || !IsDigits(id) || id in known then Enrolment(d1, false, input[1..])
      else EnrolLastName(d1, exams, input[1..])
  }

  /** `set_info` once the id is accepted: the last name, then the rest. */
  function EnrolLastName(d: StudentData, exams: JsonFile, input: seq<string>): (e: Enrolment)
    ensures IsSuffix(e.rest, input)
    ensures e.data.id == d.id
  {
    if input == [] then Enrolment(d, false, [])
    else
      var last := Title(Strip(input[0]));
      var d2 := d.(lastName := Some(last));
      if last == "" || !IsAlpha(last) then Enrolment(d2, false, input[1..])
      else EnrolFirstName(d2, exams, input[1..])
  }

  /** `set_info` once both the id and the last name are accepted: the first name, then the exam result. */
  function EnrolFirstName(d: StudentData, exams: JsonFile, input: seq<string>): (e: Enrolment)
    ensures IsSuffix(e.rest, input)
    ensures e.data.id == d.id
  {
    if input == [] then Enrolment(d, false, [])
    else
      var first := Title(Strip(input[0]));
      var d3 := d.(firstName := Some(first));
      if first == "" || !IsAlpha(first) then Enrolment(d3, false, input[1..])
      else
        var sitting := ExamResultFor(exams, input[1..]);
        var d4 := d3.(examResult := sitting.result);
        if sitting.result.None? then Enrolment(d4, false, sitting.rest)
        else Enrolment(d4.(materials := Some([]), unexploredTopics := Some({})), true, sitting.rest)
  }

  /**
   * A student is saved exactly when the id is numeric and unknown, both names alphabetic and
   * an attempt read; the saved record then holds the stripped, title-cased fields, that
   * attempt, and empty materials and topics. With no input at all nothing changes.
   */
  lemma EnrolOutcome(d: StudentData, known: set<string>, exams: JsonFile, input: seq<string>)
    ensures var e := Enrol(d, known, exams, input);
            (e.saved <==>
               (|input| >= 3 && IsDigits(Strip(input[0])) && Strip(input[0]) !in known
                && IsAlpha(Strip(input[1])) && IsAlpha(Strip(input[2]))
                && ExamResultFor(exams, input[3..]).result.Some?))
            && (e.saved ==>
                  e.data == StudentData(Some(Strip(input[0])), Some(Title(Strip(input[1]))), Some(Title(Strip(input[2]))),
                                        ExamResultFor(exams, input[3..]).result, Some([]), Some({})))
            && (input == [] ==> e.data == d)
  {
    if |input| >= 3 {
      var id, last, first := Strip(input[0]), Title(Strip(input[1])), Title(Strip(input[2]));
      assert IsDigits(id) ==> id != "";
      assert IsAlpha(last) ==> last != "";
      assert IsAlpha(first) ==> first != "";
      assert input[1..][0] == input[1] && input[1..][1..][0] == input[2] && input[1..][1..][1..] == input[3..];
    }
  }

  /**
   * The enrolment test: an unknown numeric id and two alphabetic names followed by the end
   * of the input set the three fields but save nothing, since no attempt can be read.
   */
  lemma EnrolWithoutExam(d: StudentData, known: set<string>, exams: JsonFile, id: string, last: string, first: string)
    requires IsDigits(id) && id !in known && Trimmed(id)
    requires IsAlpha(last) && IsAlpha(first)
    ensures var e := Enrol(d, known, exams, [id, last, first]);
            !e.saved && e.rest == [] && e.data.id == Some(id)
            && e.data.lastName == Some(Title(last)) && e.data.firstName == Some(Title(first))
  {
    StripUnchanged(id);
    StripUnchanged(last);
    StripUnchanged(first);
    assert [id, last, first][1..] == [last, first];
    assert [last, first][1..] == [first];
    assert [first][1..] == [];
    var d1 := d.(id := Some(id));
    var d2 := d1.(lastName := Some(Title(last)));
    var d3 := d2.(firstName := Some(Title(first)));
    assert Enrol(d, known, exams, [id, last, first]) == EnrolLastName(d1, exams, [last, first]);
    assert EnrolLastName(d1, exams, [last, first]) == EnrolFirstName(d2, exams, [first]);
    assert ExamResultFor(exams, []) == Sitting(None, []);
    assert EnrolFirstName(d2, exams, [first]) == Enrolment(d3.(examResult := None), false, []);
  }
}
