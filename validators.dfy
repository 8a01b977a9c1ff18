/**
 * `BasicStudentValidator.validate` (`LR2/model/validators.py`): the checks a field map must
 * pass before a record is built from it, in the order the source runs them; the first check
 * that fails decides the error raised.
 */
module Validation {
  import opened Wrappers
  import opened Text
  import opened Numbers
  import opened Roster

  /** The fields that must be present and not blank, in the order they are checked. */
  const RequiredFields: seq<string> :=
    ["FullName", "Course", "Group", "TotalWorks", "CompletedWorks", "ProgrammingLanguage"]

  /** What `validate` raises. A non-integer numeric field raises `int`'s own `ValueError`. */
  datatype ValidationError =
    | MissingField(field: string)
    | NotAnInteger(field: string)
    | CourseOutOfRange
    | NegativeWorks
    | CompletedExceedsTotal
    | BadFullName
    | NameNotText

  /** `str(value)`. */
  function TextOf(v: FieldValue): string {
    match v
    case Str(s) => s
    case Int(n) => IntToStr(n)
  }

  /** `int(value)`: an integer as it is, a string parsed; `None` where `int` raises. */
  function IntOf(v: FieldValue): (r: Option<int>)
    ensures v.Int? ==> r == Some(v.n)
  {
    match v
    case Str(s) => ParseInt(s)
    case Int(n) => Some(n)
  }

  /** The field is in the map and `str(value).strip()` is not empty. */
  predicate Present(data: FieldMap, field: string) {
    field in data && !IsBlank(TextOf(data[field]))
  }

  /** A full name of exactly three whitespace-separated words, each made of letters only. */
  predicate ThreeAlphaWords(name: string) {
    var parts := Split(name);
    |parts| == 3 && forall i :: 0 <= i < 3 ==> IsAlpha(parts[i])
  }

  /** The first field of `fields` that is not present, as the loop over the required fields finds it. */
  function FirstMissing(data: FieldMap, fields: seq<string>): (r: Option<string>)
    ensures r.None? <==> forall i :: 0 <= i < |fields| ==> Present(data, fields[i])
    ensures r.Some? ==> exists i :: 0 <= i < |fields| && fields[i] == r.value && !Present(data, fields[i])
                                    && forall j :: 0 <= j < i ==> Present(data, fields[j])
  {
    if fields == [] then None
    else if !Present(data, fields[0]) then Some(fields[0])
    else
      var r := FirstMissing(data, fields[1..]);
      if r.Some? then
        ghost var i :| 0 <= i < |fields[1..]| && fields[1..][i] == r.value && !Present(data, fields[1..][i])
                       && forall j :: 0 <= j < i ==> Present(data, fields[1..][j]);
        assert fields[i + 1] == r.value && forall j :: 0 <= j < i + 1 ==> Present(data, fields[j]);
        r
      else r
  }

  /** Every required field present, written out field by field. */
  predicate AllPresent(data: FieldMap) {
    Present(data, "FullName") && Present(data, "Course") && Present(data, "Group")
    && Present(data, "TotalWorks") && Present(data, "CompletedWorks") && Present(data, "ProgrammingLanguage")
  }

  /** No required field is missing exactly when all are present. */
  lemma NoneMissing(data: FieldMap)
    ensures FirstMissing(data, RequiredFields).None? <==> AllPresent(data)
  {
    if AllPresent(data) {
      forall i | 0 <= i < |RequiredFields|
        ensures Present(data, RequiredFields[i])
      {
      }
    }
    if FirstMissing(data, RequiredFields).None? {
      assert Present(data, RequiredFields[0]) && Present(data, RequiredFields[1]) && Present(data, RequiredFields[2]);
      assert Present(data, RequiredFields[3]) && Present(data, RequiredFields[4]) && Present(data, RequiredFields[5]);
    }
  }

  /** `int(data[field])` for a field of the map; `None` for a missing field or one `int` rejects. */
  function Num(data: FieldMap, field: string): Option<int> {
    if field in data then IntOf(data[field]) else None
  }

  /** The full name when it is a string. */
  function NameOf(data: FieldMap): Option<string> {
    if "FullName" in data && data["FullName"].Str? then Some(data["FullName"].s) else None
  }

  /**
   * What a valid record is: every required field present, a course from 1 to 4, integer work
   * counts with 0 <= completed <= total, and a full name of three alphabetic words.
   */
  predicate Valid(data: FieldMap) {
    AllPresent(data)
    && Num(data, "Course").Some? && 1 <= Num(data, "Course").value <= 4
    && Num(data, "TotalWorks").Some? && Num(data, "CompletedWorks").Some?
    && 0 <= Num(data, "CompletedWorks").value <= Num(data, "TotalWorks").value
    && NameOf(data).Some? && ThreeAlphaWords(NameOf(data).value)
  }

  /**
   * The numeric checks of `validate`, on the parsed Course, TotalWorks and CompletedWorks:
   * the course is parsed and range-checked before the work counts are parsed, and the counts
   * are checked for sign before they are compared.
   */
  function CheckNumbers(course: Option<int>, total: Option<int>, completed: Option<int>): (r: Option<ValidationError>)
    ensures r.None? <==> course.Some? && 1 <= course.value <= 4 && total.Some? && completed.Some?
                         && 0 <= completed.value <= total.value
    ensures r.Some? ==> r.value.NotAnInteger? || r.value in {CourseOutOfRange, NegativeWorks, CompletedExceedsTotal}
    ensures r == Some(NotAnInteger("Course")) <==> course.None?
    ensures r == Some(CourseOutOfRange) <==> course.Some? && !(1 <= course.value <= 4)
    ensures r == Some(NegativeWorks) ==> total.Some? && completed.Some? && (total.value < 0 || completed.value < 0)
    ensures r == Some(CompletedExceedsTotal) ==> total.Some? && completed.Some? && 0 <= total.value < completed.value
  {
    if course.None? then Some(NotAnInteger("Course"))
    else if !(1 <= course.value <= 4) then Some(CourseOutOfRange)
    else if total.None? then Some(NotAnInteger("TotalWorks"))
    else if completed.None? then Some(NotAnInteger("CompletedWorks"))
    else if total.value < 0 || completed.value < 0 then Some(NegativeWorks)
    else if completed.value > total.value then Some(CompletedExceedsTotal)
    else None
  }

  /** The name check of `validate`; a name that is not a string has no `split` and raises. */
  function CheckName(name: Option<string>): (r: Option<ValidationError>)
    ensures r.None? <==> name.Some? && ThreeAlphaWords(name.value)
    ensures r.Some? ==> r.value in {NameNotText, BadFullName}
  {
    if name.None? then Some(NameNotText)
    else if !ThreeAlphaWords(name.value) then Some(BadFullName)
    else None
  }

  /**
   * `validate`: `None` when the map passes, otherwise the error of the first failing check:
   * first the required fields in order, then the numbers, then the name.
   */
  function Validate(data: FieldMap): (r: Option<ValidationError>)
    ensures r.None? <==> Valid(data)
  {
    NoneMissing(data);
    var missing := FirstMissing(data, RequiredFields);
    if missing.Some? then Some(MissingField(missing.value))
    else
      var numbers := CheckNumbers(Num(data, "Course"), Num(data, "TotalWorks"), Num(data, "CompletedWorks"));
      if numbers.Some? then numbers else CheckName(NameOf(data))
  }

  /**
   * The error raised names a missing field exactly when some required field is missing, and
   * then the first one; a name error comes only after every earlier check passed.
   */
  lemma ValidateOrder(data: FieldMap)
    ensures var r := Validate(data);
            (r.Some? && r.value.MissingField?) <==> FirstMissing(data, RequiredFields).Some?
    ensures var r := Validate(data);
            r.Some? && r.value.MissingField? ==> r.value.field in RequiredFields && !Present(data, r.value.field)
    ensures var r := Validate(data);
            r.Some? && r.value in {NameNotText, BadFullName} ==>
              FirstMissing(data, RequiredFields).None?
              && CheckNumbers(Num(data, "Course"), Num(data, "TotalWorks"), Num(data, "CompletedWorks")).None?
  {
  }

  /** A missing field is reported before any other check. */
  lemma MissingFieldFirst(data: FieldMap, i: nat)
    requires i < |RequiredFields| && !Present(data, RequiredFields[i])
    ensures Validate(data).Some? && Validate(data).value.MissingField?
  {
  }

  /** With every field present, a course out of range is reported whatever the work counts are. */
  lemma CourseCheckedBeforeWorks(data: FieldMap)
    requires FirstMissing(data, RequiredFields).None?
    requires Num(data, "Course").Some? && Num(data, "Course").value > 4
    ensures Validate(data) == Some(CourseOutOfRange)
  {
  }

  /** Three alphabetic words joined by single spaces make a valid full name. */
  lemma ThreeAlphaJoin(a: string, b: string, c: string)
    requires IsAlpha(a) && IsAlpha(b) && IsAlpha(c)
    ensures ThreeAlphaWords(Join([a, b, c]))
  {
    var words := [a, b, c];
    assert forall k :: 0 <= k < 3 ==> IsWord(words[k]);
    SplitJoin(words);
  }
}
