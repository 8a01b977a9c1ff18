/**
 * `SaxHandler` and `DomHandler` (`LR2/model/student_handler.py`). The XML parser is replaced by
 * the stream of events it would deliver to the handler; the DOM writer by the stream of events
 * a parser would deliver when reading the file it writes back.
 *
 * A record under construction is a Python dict, an object: `endElement("Student")` appends the
 * handler's current dict itself to `students`, and the handler keeps filling that same dict
 * until the next `startElement("Student")`. So the state keeps every dict created, in `dicts`,
 * and `students` and `currentStudent` refer to them by position.
 */
module StudentHandlers {
  import opened Wrappers
  import opened Text
  import opened Numbers
  import opened Roster

  /** What the parser calls on the content handler. */
  datatype Event = StartElement(name: string) | Characters(content: string) | EndElement(name: string)

  /** The fields whose text is stored as it is, and those stored through `int`. */
  const TextFields: set<string> := {"FullName", "Group", "ProgrammingLanguage"}
  const NumberFields: set<string> := {"Course", "TotalWorks", "CompletedWorks"}

  /** The handler's attributes; `currentElement` is `None` before the first tag and after each closing tag. */
  datatype Handler = Handler(
    dicts: seq<FieldMap>,
    students: seq<Option<nat>>,
    currentStudent: Option<nat>,
    currentElement: Option<string>)

  /** `SaxHandler()`. */
  const Fresh := Handler([], [], None, None)

  /** A position that refers to an existing dict. */
  predicate Refers(dicts: seq<FieldMap>, p: Option<nat>) {
    p.Some? && p.value < |dicts|
  }

  /**
   * Every position refers to an existing dict, or is `None`. The functions below are total and
   * treat a dangling position like `None`; `ApplyAllWellFormed` shows none ever dangles.
   */
  predicate WellFormed(h: Handler) {
    (h.currentStudent.Some? ==> Refers(h.dicts, h.currentStudent))
    && forall i :: 0 <= i < |h.students| ==> h.students[i].Some? ==> Refers(h.dicts, h.students[i])
  }

  /** `students` as the caller sees it after the parse: each entry the dict it refers to, or `None`. */
  function Records(h: Handler): (r: seq<Option<FieldMap>>)
    ensures |r| == |h.students|
  {
    seq(|h.students|, i requires 0 <= i < |h.students| =>
      if Refers(h.dicts, h.students[i]) then Some(h.dicts[h.students[i].value]) else None)
  }

  /** `startElement(name, attrs)`: "Student" begins a new empty dict; every tag becomes the current element. */
  function Start(h: Handler, name: string): (g: Handler)
    ensures g.students == h.students && g.currentElement == Some(name)
    ensures name == "Student" ==> g.dicts == h.dicts + [map[]] && g.currentStudent == Some(|h.dicts|)
    ensures name != "Student" ==> g.dicts == h.dicts && g.currentStudent == h.currentStudent
  {
    if name == "Student" then Handler(h.dicts + [map[]], h.students, Some(|h.dicts|), Some(name))
    else h.(currentElement := Some(name))
  }

  /** The current dict with `field` set to `v`; `None` where there is no current dict and the assignment raises. */
  function Store(h: Handler, field: string, v: FieldValue): (r: Option<Handler>)
    ensures r.None? <==> !Refers(h.dicts, h.currentStudent)
    ensures r.Some? ==> r.value.students == h.students && r.value.currentStudent == h.currentStudent
                        && r.value.currentElement == h.currentElement && |r.value.dicts| == |h.dicts|
  {
    if !Refers(h.dicts, h.currentStudent) then None
    else
      var k := h.currentStudent.value;
      Some(h.(dicts := h.dicts[k := h.dicts[k][field := v]]))
  }

  /**
   * `characters(content)`: text that is blank, or that comes with no current element, or under
   * an element that is not a field, is dropped; a text field keeps the text as it is and a number
   * field keeps `int(content)`. `None` where `int` or the assignment raises.
   */
  function Chars(h: Handler, content: string): (r: Option<Handler>)
    ensures r.Some? ==> r.value.students == h.students && r.value.currentStudent == h.currentStudent
                        && r.value.currentElement == h.currentElement && |r.value.dicts| == |h.dicts|
  {
    if h.currentElement.None? || h.currentElement.value == "" || IsBlank(content) then Some(h)
    else
      var field := h.currentElement.value;
      if field in TextFields then Store(h, field, Str(content))
      else if field in NumberFields then
        var n := ParseInt(content);
        if n.None? then None else Store(h, field, Int(n.value))
      else Some(h)
  }

  /** `endElement(name)`: "Student" appends the current dict itself; every closing tag clears the current element. */
  function End(h: Handler, name: string): (g: Handler)
    ensures g.dicts == h.dicts && g.currentStudent == h.currentStudent && g.currentElement.None?
    ensures g.students == (if name == "Student" then h.students + [h.currentStudent] else h.students)
  {
    if name == "Student" then Handler(h.dicts, h.students + [h.currentStudent], h.currentStudent, None)
    else h.(currentElement := None)
  }

  /** One event; `None` where the handler raises, which aborts the parse. */
  function Apply(h: Handler, e: Event): (r: Option<Handler>)
    ensures !e.Characters? ==> r.Some?
  {
    match e
    case StartElement(name) => Some(Start(h, name))
    case Characters(content) => Chars(h, content)
    case EndElement(name) => Some(End(h, name))
  }

  /** The events in order, stopping at the first that raises. */
  function ApplyAll(h: Handler, events: seq<Event>): Option<Handler>
    decreases |events|
  {
    if events == [] then Some(h)
    else
      var g := Apply(h, events[0]);
      if g.None? then None else ApplyAll(g.value, events[1..])
  }

  /** `ApplyAll` continued from a result that may already be an error. */
  function Then(r: Option<Handler>, events: seq<Event>): Option<Handler> {
    if r.None? then None else ApplyAll(r.value, events)
  }

  /** Every event keeps every position in range. */
  lemma ApplyWellFormed(h: Handler, e: Event)
    requires WellFormed(h) && Apply(h, e).Some?
    ensures WellFormed(Apply(h, e).value)
  {
    var g := Apply(h, e).value;
    forall i | 0 <= i < |g.students| && g.students[i].Some?
      ensures Refers(g.dicts, g.students[i])
    {
      if i < |h.students| {
        assert g.students[i] == h.students[i];
      }
    }
  }

  /** A parse from a well-formed state never leaves a dangling position. */
  lemma {:induction false} ApplyAllWellFormed(h: Handler, events: seq<Event>)
    requires WellFormed(h) && ApplyAll(h, events).Some?
    ensures WellFormed(ApplyAll(h, events).value)
    decreases |events|
  {
    if events != [] {
      ApplyWellFormed(h, events[0]);
      ApplyAllWellFormed(Apply(h, events[0]).value, events[1..]);
    }
  }

  /** Feeding two streams one after the other is feeding their concatenation. */
  lemma {:induction false} ApplyAllAppend(h: Handler, a: seq<Event>, b: seq<Event>)
    ensures ApplyAll(h, a + b) == Then(ApplyAll(h, a), b)
    decreases |a|
  {
    if a == [] {
      assert a + b == b;
    } else {
      assert (a + b)[0] == a[0];
      assert (a + b)[1..] == a[1..] + b;
      var g := Apply(h, a[0]);
      if g.Some? {
        ApplyAllAppend(g.value, a[1..], b);
      }
    }
  }

  /** The list of records grows only at a closing "Student" tag, and then by the current dict. */
  lemma StudentsGrowOnlyAtEnd(h: Handler, e: Event)
    requires Apply(h, e).Some?
    ensures e == EndElement("Student") ==> Apply(h, e).value.students == h.students + [h.currentStudent]
    ensures e != EndElement("Student") ==> Apply(h, e).value.students == h.students
  {
  }

  /** Blank text, and text with no current element, change nothing. */
  lemma IgnoredText(h: Handler, content: string)
    requires IsBlank(content) || h.currentElement.None?
    ensures Chars(h, content) == Some(h)
  {
  }

  /** Text right after a closing tag is not attributed to any field. */
  lemma TextAfterClosingTagIgnored(h: Handler, name: string, content: string)
    ensures ApplyAll(h, [EndElement(name), Characters(content)]) == Some(End(h, name))
  {
    var e := [EndElement(name), Characters(content)];
    var g := End(h, name);
    assert e[1..] == [Characters(content)] && e[1..][1..] == [];
    IgnoredText(g, content);
    assert ApplyAll(g, e[1..]) == Some(g);
  }

  /** Text under an element that is not a field (such as "Students" or "Student") stores nothing. */
  lemma NonFieldTextIgnored(h: Handler, content: string)
    requires h.currentElement.Some?
    requires h.currentElement.value !in TextFields && h.currentElement.value !in NumberFields
    ensures Chars(h, content) == Some(h)
  {
  }

  /** Text under a text field is kept as it is, and a later chunk overwrites an earlier one. */
  lemma TextFieldChars(h: Handler, first: string, second: string)
    requires Refers(h.dicts, h.currentStudent) && h.currentElement.Some? && h.currentElement.value in TextFields
    requires !IsBlank(first) && !IsBlank(second)
    ensures var k, f := h.currentStudent.value, h.currentElement.value;
            Chars(h, first) == Some(h.(dicts := h.dicts[k := h.dicts[k][f := Str(first)]]))
            && Chars(Chars(h, first).value, second) == Some(h.(dicts := h.dicts[k := h.dicts[k][f := Str(second)]]))
  {
    var k, f := h.currentStudent.value, h.currentElement.value;
    var g := h.(dicts := h.dicts[k := h.dicts[k][f := Str(first)]]);
    assert Chars(h, first) == Some(g);
    assert g.dicts[k][f := Str(second)] == h.dicts[k][f := Str(second)];
    assert g.dicts[k := g.dicts[k][f := Str(second)]] == h.dicts[k := h.dicts[k][f := Str(second)]];
  }

  /** Text under a number field, written by `str`, is read back through `int` as the same number. */
  lemma NumberFieldChars(h: Handler, n: int)
    requires Refers(h.dicts, h.currentStudent) && h.currentElement.Some? && h.currentElement.value in NumberFields
    ensures var k := h.currentStudent.value;
            Chars(h, IntToStr(n)) == Some(h.(dicts := h.dicts[k := h.dicts[k][h.currentElement.value := Int(n)]]))
  {
    ParseIntToStr(n);
    assert !IsBlank(IntToStr(n));
    assert h.currentElement.value !in TextFields;
  }

  /** Text for a field with no current dict, or number text `int` rejects, aborts the parse. */
  lemma FieldTextRaises(h: Handler, content: string)
    requires h.currentElement.Some? && !IsBlank(content)
    requires (h.currentElement.value in TextFields + NumberFields && h.currentStudent.None?)
             || (h.currentElement.value in NumberFields && ParseInt(content).None?)
    ensures Chars(h, content).None?
  {
  }

  // ---------------------------------------------------------------------------
  // The document `DomHandler.write_students_to_file` writes, as the events read back from it

  /** `_add_text_element(doc, parent, name, text)`: one child element holding one text node. */
  function FieldEvents(name: string, text: string): seq<Event> {
    [StartElement(name), Characters(text), EndElement(name)]
  }

  /** One `Student` element, its children in the order the writer adds them, numbers through `str`. */
  function StudentEvents(s: Student): seq<Event> {
    [StartElement("Student")]
      + FieldEvents("FullName", s.fullName)
      + FieldEvents("Course", IntToStr(s.course))
      + FieldEvents("Group", s.group)
      + FieldEvents("TotalWorks", IntToStr(s.totalWorks))
      + FieldEvents("CompletedWorks", IntToStr(s.completedWorks))
      + FieldEvents("ProgrammingLanguage", s.programmingLanguage)
      + [EndElement("Student")]
  }

  /** The `Student` elements of a list of records, in list order. */
  function StudentsEvents(xs: seq<Student>): seq<Event>
    decreases |xs|
  {
    if xs == [] then [] else StudentsEvents(xs[..|xs| - 1]) + StudentEvents(xs[|xs| - 1])
  }

  /** The whole document: the `Students` root around the records. */
  function DocumentEvents(xs: seq<Student>): seq<Event> {
    [StartElement("Students")] + StudentsEvents(xs) + [EndElement("Students")]
  }

  /** A field element whose text the handler keeps: not blank, and an integer under a number field. */
  predicate ReadableField(name: string, text: string) {
    !IsBlank(text) && (name in TextFields || (name in NumberFields && ParseInt(text).Some?))
  }

  /** What the handler stores for a readable field. */
  function ValueRead(name: string, text: string): FieldValue {
    if name in NumberFields && ParseInt(text).Some? then Int(ParseInt(text).value) else Str(text)
  }

  /** Text that is not blank, under a text field, is kept as it is. */
  lemma TextFieldReadable(name: string, text: string)
    requires name in TextFields && !IsBlank(text)
    ensures ReadableField(name, text) && ValueRead(name, text) == Str(text)
  {
  }

  /** A number written by `str` under a number field is read back as the same number. */
  lemma NumberFieldReadable(name: string, n: int)
    requires name in NumberFields
    ensures ReadableField(name, IntToStr(n)) && ValueRead(name, IntToStr(n)) == Int(n)
  {
    ParseIntToStr(n);
  }

  /** The dict the handler builds from one written `Student` element, field by field in document order. */
  function FieldsOf(s: Student): FieldMap {
    map[]["FullName" := Str(s.fullName)]["Course" := Int(s.course)]["Group" := Str(s.group)]
         ["TotalWorks" := Int(s.totalWorks)]["CompletedWorks" := Int(s.completedWorks)]
         ["ProgrammingLanguage" := Str(s.programmingLanguage)]
  }

  /** The dict of a record holds each of its six fields, under the field's name. */
  lemma FieldsOfLookup(s: Student)
    ensures var d := FieldsOf(s);
            "FullName" in d && "Course" in d && "Group" in d && "TotalWorks" in d
            && "CompletedWorks" in d && "ProgrammingLanguage" in d
    ensures var d := FieldsOf(s);
            d["FullName"] == Str(s.fullName) && d["Course"] == Int(s.course) && d["Group"] == Str(s.group)
            && d["TotalWorks"] == Int(s.totalWorks) && d["CompletedWorks"] == Int(s.completedWorks)
            && d["ProgrammingLanguage"] == Str(s.programmingLanguage)
  {
  }

  /** The text fields a written record can be read back from: not blank, so the handler keeps them. */
  predicate Readable(s: Student) {
    !IsBlank(s.fullName) && !IsBlank(s.group) && !IsBlank(s.programmingLanguage)
  }

  /** One field element read with a current dict: the field set, the element cleared afterwards. */
  lemma FieldRead(h: Handler, name: string, text: string)
    requires Refers(h.dicts, h.currentStudent) && ReadableField(name, text)
    ensures var k := h.currentStudent.value;
            ApplyAll(h, FieldEvents(name, text))
              == Some(h.(dicts := h.dicts[k := h.dicts[k][name := ValueRead(name, text)]], currentElement := None))
  {
    var e := FieldEvents(name, text);
    assert name != "Student" && name != "";
    var g := Start(h, name);
    assert g == h.(currentElement := Some(name));
    var k := h.currentStudent.value;
    var g2 := g.(dicts := h.dicts[k := h.dicts[k][name := ValueRead(name, text)]]);
    assert Apply(g, e[1]) == Some(g2);
    var g3 := End(g2, name);
    assert e[2..] == [EndElement(name)] && e[2..][1..] == [];
    assert ApplyAll(g2, e[2..]) == Some(g3);
    assert e[1..][1..] == e[2..];
  }

  /** After a prefix that left the newest dict current, one more field element fills that dict. */
  lemma FieldStep(h0: Handler, p: seq<Event>, dicts: seq<FieldMap>, d: FieldMap, students: seq<Option<nat>>,
                  element: Option<string>, name: string, text: string)
    requires ApplyAll(h0, p) == Some(Handler(dicts + [d], students, Some(|dicts|), element))
    requires ReadableField(name, text)
    ensures ApplyAll(h0, p + FieldEvents(name, text))
              == Some(Handler(dicts + [d[name := ValueRead(name, text)]], students, Some(|dicts|), None))
  {
    var g := Handler(dicts + [d], students, Some(|dicts|), element);
    ApplyAllAppend(h0, p, FieldEvents(name, text));
    FieldRead(g, name, text);
    assert (dicts + [d])[|dicts| := d[name := ValueRead(name, text)]] == dicts + [d[name := ValueRead(name, text)]];
  }

  /** Reading one written `Student` element appends the dict `FieldsOf` describes. */
  lemma StudentRead(h: Handler, s: Student)
    requires Readable(s)
    ensures ApplyAll(h, StudentEvents(s))
              == Some(Handler(h.dicts + [FieldsOf(s)], h.students + [Some(|h.dicts|)], Some(|h.dicts|), None))
  {
    var ds, st := h.dicts, h.students;
    var p0 := [StartElement("Student")];
    assert ApplyAll(h, p0) == Some(Handler(ds + [map[]], st, Some(|ds|), Some("Student")));
    TextFieldReadable("FullName", s.fullName);
    FieldStep(h, p0, ds, map[], st, Some("Student"), "FullName", s.fullName);
    var p1 := p0 + FieldEvents("FullName", s.fullName);
    var d1 := map[]["FullName" := Str(s.fullName)];
    NumberFieldReadable("Course", s.course);
    FieldStep(h, p1, ds, d1, st, None, "Course", IntToStr(s.course));
    var p2 := p1 + FieldEvents("Course", IntToStr(s.course));
    var d2 := d1["Course" := Int(s.course)];
    TextFieldReadable("Group", s.group);
    FieldStep(h, p2, ds, d2, st, None, "Group", s.group);
    var p3 := p2 + FieldEvents("Group", s.group);
    var d3 := d2["Group" := Str(s.group)];
    NumberFieldReadable("TotalWorks", s.totalWorks);
    FieldStep(h, p3, ds, d3, st, None, "TotalWorks", IntToStr(s.totalWorks));
    var p4 := p3 + FieldEvents("TotalWorks", IntToStr(s.totalWorks));
    var d4 := d3["TotalWorks" := Int(s.totalWorks)];
    NumberFieldReadable("CompletedWorks", s.completedWorks);
    FieldStep(h, p4, ds, d4, st, None, "CompletedWorks", IntToStr(s.completedWorks));
    var p5 := p4 + FieldEvents("CompletedWorks", IntToStr(s.completedWorks));
    var d5 := d4["CompletedWorks" := Int(s.completedWorks)];
    TextFieldReadable("ProgrammingLanguage", s.programmingLanguage);
    FieldStep(h, p5, ds, d5, st, None, "ProgrammingLanguage", s.programmingLanguage);
    var p6 := p5 + FieldEvents("ProgrammingLanguage", s.programmingLanguage);
    var d6 := d5["ProgrammingLanguage" := Str(s.programmingLanguage)];
    var g := Handler(ds + [d6], st, Some(|ds|), None);
    ApplyAllAppend(h, p6, [EndElement("Student")]);
    assert ApplyAll(g, [EndElement("Student")]) == Some(End(g, "Student"));
  }

  /** The dicts a list of written records reads back as, in list order. */
  function ReadBack(xs: seq<Student>): (r: seq<Option<FieldMap>>)
    ensures |r| == |xs|
    ensures forall k :: 0 <= k < |xs| ==> r[k] == Some(FieldsOf(xs[k]))
    decreases |xs|
  {
    if xs == [] then [] else ReadBack(xs[..|xs| - 1]) + [Some(FieldsOf(xs[|xs| - 1]))]
  }

  /** Appending a reference to a new dict appends that dict to what the caller sees. */
  lemma RecordsAppend(g: Handler, d: FieldMap, current: Option<nat>, element: Option<string>)
    requires WellFormed(g)
    ensures Records(Handler(g.dicts + [d], g.students + [Some(|g.dicts|)], current, element)) == Records(g) + [Some(d)]
  {
    var g2 := Handler(g.dicts + [d], g.students + [Some(|g.dicts|)], current, element);
    forall i | 0 <= i < |g.students|
      ensures Records(g2)[i] == Records(g)[i]
    {
      assert g2.students[i] == g.students[i];
    }
  }

  /** The written records read back one dict each, in list order, after whatever the handler held before. */
  lemma {:induction false} StudentsRead(h: Handler, xs: seq<Student>)
    requires WellFormed(h) && forall k :: 0 <= k < |xs| ==> Readable(xs[k])
    ensures ApplyAll(h, StudentsEvents(xs)).Some?
    ensures Records(ApplyAll(h, StudentsEvents(xs)).value) == Records(h) + ReadBack(xs)
    decreases |xs|
  {
    if xs == [] {
      assert Records(h) + [] == Records(h);
    } else {
      var init, s := xs[..|xs| - 1], xs[|xs| - 1];
      assert forall k :: 0 <= k < |init| ==> init[k] == xs[k];
      StudentsRead(h, init);
      var g := ApplyAll(h, StudentsEvents(init)).value;
      ApplyAllWellFormed(h, StudentsEvents(init));
      ApplyAllAppend(h, StudentsEvents(init), StudentEvents(s));
      StudentRead(g, s);
      RecordsAppend(g, FieldsOf(s), Some(|g.dicts|), None);
      assert ReadBack(xs) == ReadBack(init) + [Some(FieldsOf(s))];
      assert Records(h) + (ReadBack(init) + [Some(FieldsOf(s))]) == (Records(h) + ReadBack(init)) + [Some(FieldsOf(s))];
    }
  }

  /** An element around a body of events: its opening tag, the body, its closing tag. */
  lemma Enclosed(h: Handler, name: string, body: seq<Event>)
    ensures ApplyAll(h, [StartElement(name)] + body + [EndElement(name)])
              == (var r := ApplyAll(Start(h, name), body); if r.None? then None else Some(End(r.value, name)))
  {
    var open := [StartElement(name)];
    assert ApplyAll(h, open) == Some(Start(h, name));
    ApplyAllAppend(h, open, body);
    ApplyAllAppend(h, open + body, [EndElement(name)]);
    var r := ApplyAll(Start(h, name), body);
    if r.Some? {
      assert ApplyAll(r.value, [EndElement(name)]) == Some(End(r.value, name));
    }
  }

  /** Reading the whole written document gives one dict per record, in list order. */
  lemma DocumentRead(xs: seq<Student>)
    requires forall k :: 0 <= k < |xs| ==> Readable(xs[k])
    ensures ApplyAll(Fresh, DocumentEvents(xs)).Some?
    ensures Records(ApplyAll(Fresh, DocumentEvents(xs)).value) == ReadBack(xs)
  {
    RootBodyRead(xs);
    RootRecords(StudentsEvents(xs), ReadBack(xs));
  }

  /** Closing the root element after its body keeps what the body read. */
  lemma RootRecords(body: seq<Event>, r: seq<Option<FieldMap>>)
    requires ApplyAll(Start(Fresh, "Students"), body).Some?
    requires Records(ApplyAll(Start(Fresh, "Students"), body).value) == r
    ensures ApplyAll(Fresh, [StartElement("Students")] + body + [EndElement("Students")]).Some?
    ensures Records(ApplyAll(Fresh, [StartElement("Students")] + body + [EndElement("Students")]).value) == r
  {
    Enclosed(Fresh, "Students", body);
    var g := ApplyAll(Start(Fresh, "Students"), body).value;
    SameRecords(End(g, "Students"), g);
  }

  /** Inside the root element, the records' events read back as one dict per record. */
  lemma RootBodyRead(xs: seq<Student>)
    requires forall k :: 0 <= k < |xs| ==> Readable(xs[k])
    ensures ApplyAll(Start(Fresh, "Students"), StudentsEvents(xs)).Some?
    ensures Records(ApplyAll(Start(Fresh, "Students"), StudentsEvents(xs)).value) == ReadBack(xs)
  {
    var h0 := Start(Fresh, "Students");
    StudentsRead(h0, xs);
    assert Records(h0) == [];
    assert [] + ReadBack(xs) == ReadBack(xs);
  }

  /** What the caller sees depends only on the dicts and the list of positions. */
  lemma SameRecords(g: Handler, h: Handler)
    requires g.dicts == h.dicts && g.students == h.students
    ensures Records(g) == Records(h)
  {
  }

  class SaxHandler {
    var dicts: seq<FieldMap>
    var students: seq<Option<nat>>
    var currentStudent: Option<nat>
    var currentElement: Option<string>

    /** The handler's attributes as one value. */
    function State(): Handler
      reads this
    {
      Handler(dicts, students, currentStudent, currentElement)
    }

    /** `SaxHandler()`: no records, no current dict, no current element. */
    constructor()
      ensures State() == Fresh
    {
      dicts, students, currentStudent, currentElement := [], [], None, None;
    }

    /** `startElement`. */
    method StartElement(name: string)
      modifies this
      ensures State() == Start(old(State()), name)
    {
      if name == "Student" {
        dicts := dicts + [map[]];
        currentStudent := Some(|dicts| - 1);
      }
      currentElement := Some(name);
    }

    /** `characters`: `ok` is false where it raises, and then nothing has changed. */
    method Characters(content: string) returns (ok: bool)
      requires WellFormed(State())
      modifies this
      ensures ok <==> Chars(old(State()), content).Some?
      ensures ok ==> State() == Chars(old(State()), content).value
      ensures !ok ==> State() == old(State())
    {
      ok := true;
      if currentElement.Some? && currentElement.value != "" && !IsBlank(content) {
        var field := currentElement.value;
        if field in TextFields {
          if currentStudent.None? {
            return false;
          }
          dicts := dicts[currentStudent.value := dicts[currentStudent.value][field := Str(content)]];
        } else if field in NumberFields {
          var n := ParseInt(content);
          if n.None? || currentStudent.None? {
            return false;
          }
          dicts := dicts[currentStudent.value := dicts[currentStudent.value][field := Int(n.value)]];
        }
      }
    }

    /** `endElement`. */
    method EndElement(name: string)
      modifies this
      ensures State() == End(old(State()), name)
    {
      if name == "Student" {
        students := students + [currentStudent];
      }
      currentElement := None;
    }

    /** The parser driving the handler: every event in order, `ok` false at the first that raises. */
    method Feed(events: seq<Event>) returns (ok: bool)
      requires WellFormed(State())
      modifies this
      ensures ok <==> ApplyAll(old(State()), events).Some?
      ensures ok ==> State() == ApplyAll(old(State()), events).value
    {
      ghost var h0 := State();
      var i := 0;
      while i < |events|
        invariant 0 <= i <= |events|
        invariant WellFormed(State())
        invariant ApplyAll(h0, events) == ApplyAll(State(), events[i..])
      {
        assert events[i..][0] == events[i] && events[i..][1..] == events[i + 1..];
        ghost var before := State();
        match events[i] {
          case StartElement(name) =>
            StartElement(name);
          case Characters(content) =>
            var step := Characters(content);
            if !step {
              return false;
            }
          case EndElement(name) =>
            EndElement(name);
        }
        ApplyWellFormed(before, events[i]);
        i := i + 1;
      }
      assert events[i..] == [];
      ok := true;
    }
  }

  class DomHandler {
    /** `write_students_to_file`, as the events the written file yields when it is read. */
    method WriteStudents(students: seq<Student>) returns (events: seq<Event>)
      ensures events == DocumentEvents(students)
    {
      var body := [];
      var i := 0;
      while i < |students|
        invariant 0 <= i <= |students|
        invariant body == StudentsEvents(students[..i])
      {
        assert students[..i + 1][..i] == students[..i];
        body := body + StudentEvents(students[i]);
        i := i + 1;
      }
      assert students[..i] == students;
      events := [StartElement("Students")] + body + [EndElement("Students")];
    }
  }
}
