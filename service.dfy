/**
 * `StudentModel` (`LR2/model/service.py`): the roster's model layer. New records are validated,
 * their full name normalised and appended to the repository; a file is read through the SAX
 * handler and its records added again one by one.
 */
module RosterService {
  import opened Wrappers
  import opened Text
  import opened Numbers
  import opened Roster
  import opened Validation
  import opened Repositories
  import opened StudentHandlers

  /** Each word capitalised. */
  function Capitalized(words: seq<string>): (r: seq<string>)
    ensures |r| == |words|
    ensures forall i :: 0 <= i < |words| ==> r[i] == Capitalize(words[i])
  {
    seq(|words|, i requires 0 <= i < |words| => Capitalize(words[i]))
  }

  /**
   * `_format_fio`: an empty name as it is; otherwise its whitespace-separated words, each
   * capitalised, joined by single spaces.
   */
  function FormatFio(fullName: string): string {
    if fullName == "" then fullName else Join(Capitalized(Split(fullName)))
  }

  /** A string made of no words is blank. */
  lemma NoWordsBlank(s: string)
    requires Split(s) == []
    ensures IsBlank(s)
  {
    TextBounds(s);
  }

  /** The formatted name splits into the original words, capitalised: the same count, in the same order. */
  lemma FormatFioWords(fullName: string)
    ensures Split(FormatFio(fullName)) == Capitalized(Split(fullName))
    ensures |Split(FormatFio(fullName))| == |Split(fullName)|
  {
    var ws := Capitalized(Split(fullName));
    if fullName == "" {
      assert Split(fullName) == [];
    } else {
      assert forall k :: 0 <= k < |ws| ==> IsWord(ws[k]);
      SplitJoin(ws);
    }
  }

  /** Formatting a formatted name changes nothing. */
  lemma FormatFioIdempotent(fullName: string)
    ensures FormatFio(FormatFio(fullName)) == FormatFio(fullName)
  {
    var f := FormatFio(fullName);
    if fullName != "" && f != "" {
      FormatFioWords(fullName);
      var ws := Capitalized(Split(fullName));
      forall k | 0 <= k < |ws|
        ensures Capitalize(ws[k]) == ws[k]
      {
        CapitalizeIdempotent(Split(fullName)[k]);
      }
      assert Capitalized(ws) == ws;
    }
  }

  /** Formatting keeps a full name of three alphabetic words one. */
  lemma FormatFioKeepsValidName(fullName: string)
    requires ThreeAlphaWords(fullName)
    ensures ThreeAlphaWords(FormatFio(fullName))
  {
    FormatFioWords(fullName);
  }

  /** The record `add_student` builds from a map that passed validation. */
  function ToStudent(data: FieldMap): Student
    requires Valid(data)
  {
    Student(
      FormatFio(NameOf(data).value),
      Num(data, "Course").value,
      TextOf(data["Group"]),
      Num(data, "TotalWorks").value,
      Num(data, "CompletedWorks").value,
      TextOf(data["ProgrammingLanguage"]))
  }

  /**
   * What every record `add_student` stores satisfies: a course from 1 to 4, work counts with
   * 0 <= completed <= total, a formatted name of three alphabetic words, a group and a language
   * that are not blank.
   */
  predicate Stored(s: Student) {
    1 <= s.course <= 4 && 0 <= s.completedWorks <= s.totalWorks
    && ThreeAlphaWords(s.fullName) && FormatFio(s.fullName) == s.fullName
    && !IsBlank(s.group) && !IsBlank(s.programmingLanguage)
  }

  /** A validated map yields a stored record, so its count of works not completed is never negative. */
  lemma ValidatedRecord(data: FieldMap)
    requires Valid(data)
    ensures Stored(ToStudent(data))
    ensures NotCompletedWorks(ToStudent(data)) >= 0
  {
    var name := NameOf(data).value;
    FormatFioKeepsValidName(name);
    FormatFioIdempotent(name);
    var s := ToStudent(data);
    assert s.fullName == FormatFio(name);
    assert !IsBlank(s.group) && !IsBlank(s.programmingLanguage) by {
      assert Present(data, "Group") && Present(data, "ProgrammingLanguage");
    }
  }

  /** A stored record has a non-blank full name, so every text field of its element is read back. */
  lemma StoredReadable(s: Student)
    requires Stored(s)
    ensures Readable(s)
  {
    TextBounds(s.fullName);
  }

  /** Why `load_from_file` stopped early. */
  datatype LoadError =
    | ParseFailed                        // the handler raised; the parse was aborted
    | NotARecord                         // an entry of `students` was `None`
    | Invalid(error: ValidationError)    // `add_student` raised on an entry

  /** One entry of the parsed list through `add_student`: the record it adds, or what it raises. */
  function Outcome(entry: Option<FieldMap>): Result<Student, LoadError> {
    if entry.None? then Err(NotARecord)
    else
      var e := Validate(entry.value);
      if e.Some? then Err(Invalid(e.value)) else Ok(ToStudent(entry.value))
  }

  /** An entry adds a record exactly when it is a map that passes validation, and then the record built from it. */
  lemma OutcomeMeaning(entry: Option<FieldMap>)
    ensures Outcome(entry).Ok? <==> entry.Some? && Valid(entry.value)
    ensures Outcome(entry).Ok? ==> Outcome(entry).value == ToStudent(entry.value)
    ensures entry.None? <==> Outcome(entry) == Err(NotARecord)
    ensures entry.Some? && !Valid(entry.value) ==> Outcome(entry) == Err(Invalid(Validate(entry.value).value))
  {
  }

  /**
   * The clear-and-re-add loop of `load_from_file` over the parsed entries, with the outcome of a
   * single entry as a parameter: the records added before the first entry that raises, and the
   * error it raises.
   */
  function AddEach(outcome: Option<FieldMap> -> Result<Student, LoadError>, entries: seq<Option<FieldMap>>): (r: (seq<Student>, Option<LoadError>))
    ensures |r.0| <= |entries|
    ensures r.1.None? ==> |r.0| == |entries|
    decreases |entries|
  {
    if entries == [] then ([], None)
    else
      var o := outcome(entries[0]);
      if o.Err? then ([], Some(o.error))
      else
        var rest := AddEach(outcome, entries[1..]);
        ([o.value] + rest.0, rest.1)
  }

  /** `load_from_file`'s loop, each entry going through `add_student`. */
  function AddAll(entries: seq<Option<FieldMap>>): (seq<Student>, Option<LoadError>) {
    AddEach(Outcome, entries)
  }

  /**
   * The records added are, in order, those of the entries before the first that raises, and the
   * error reported is that entry's.
   */
  lemma {:induction false} AddEachPrefix(outcome: Option<FieldMap> -> Result<Student, LoadError>, entries: seq<Option<FieldMap>>)
    ensures var r := AddEach(outcome, entries);
            forall k :: 0 <= k < |r.0| ==> outcome(entries[k]) == Ok(r.0[k])
    ensures var r := AddEach(outcome, entries);
            r.1.Some? ==> |r.0| < |entries| && outcome(entries[|r.0|]) == Err(r.1.value)
    decreases |entries|
  {
    if entries != [] && outcome(entries[0]).Ok? {
      AddEachPrefix(outcome, entries[1..]);
      assert forall k :: 1 <= k < |entries| ==> entries[k] == entries[1..][k - 1];
    }
  }

  /** `AddEachPrefix` for `add_student` itself. */
  lemma AddAllPrefix(entries: seq<Option<FieldMap>>)
    ensures var r := AddAll(entries);
            forall k :: 0 <= k < |r.0| ==> Outcome(entries[k]) == Ok(r.0[k])
    ensures var r := AddAll(entries);
            r.1.Some? ==> |r.0| < |entries| && Outcome(entries[|r.0|]) == Err(r.1.value)
  {
    AddEachPrefix(Outcome, entries);
  }

  /** Entries that each add their record, and raise nothing, add exactly those records. */
  lemma {:induction false} AddEachAll(outcome: Option<FieldMap> -> Result<Student, LoadError>, entries: seq<Option<FieldMap>>, xs: seq<Student>)
    requires |entries| == |xs| && forall k :: 0 <= k < |xs| ==> outcome(entries[k]) == Ok(xs[k])
    ensures AddEach(outcome, entries) == (xs, None)
    decreases |xs|
  {
    if xs != [] {
      assert forall k :: 0 <= k < |xs| - 1 ==> xs[1..][k] == xs[k + 1] && entries[1..][k] == entries[k + 1];
      AddEachAll(outcome, entries[1..], xs[1..]);
      assert [xs[0]] + xs[1..] == xs;
    }
  }

  /** One pass of the loop: the entry at `i` either raises, ending the run, or adds its record before the rest. */
  lemma AddEachStep(outcome: Option<FieldMap> -> Result<Student, LoadError>, entries: seq<Option<FieldMap>>, i: nat,
                    before: seq<Student>)
    requires i < |entries|
    ensures outcome(entries[i]).Err? ==> AddEach(outcome, entries[i..]) == ([], Some(outcome(entries[i]).error))
    ensures outcome(entries[i]).Ok? ==>
              AddEach(outcome, entries[i..]) ==
              ([outcome(entries[i]).value] + AddEach(outcome, entries[i + 1..]).0, AddEach(outcome, entries[i + 1..]).1)
    ensures outcome(entries[i]).Ok? ==>
              before + AddEach(outcome, entries[i..]).0 == (before + [outcome(entries[i]).value]) + AddEach(outcome, entries[i + 1..]).0
  {
    assert entries[i..][0] == entries[i] && entries[i..][1..] == entries[i + 1..];
    if outcome(entries[i]).Ok? {
      var v, tail := outcome(entries[i]).value, AddEach(outcome, entries[i + 1..]).0;
      assert before + ([v] + tail) == (before + [v]) + tail;
    }
  }

  /** Every required field of the dict read back from a stored record is present. */
  lemma StoredFieldsPresent(s: Student)
    requires Stored(s)
    ensures AllPresent(FieldsOf(s))
  {
    var d := FieldsOf(s);
    StoredReadable(s);
    FieldsOfLookup(s);
    assert TextOf(d["Course"]) == IntToStr(s.course);
    assert TextOf(d["TotalWorks"]) == IntToStr(s.totalWorks);
    assert TextOf(d["CompletedWorks"]) == IntToStr(s.completedWorks);
  }

  /** The dict read back from a stored record passes validation and builds that record again. */
  lemma StoredFieldsValid(s: Student)
    requires Stored(s)
    ensures Valid(FieldsOf(s)) && ToStudent(FieldsOf(s)) == s
  {
    var d := FieldsOf(s);
    StoredFieldsPresent(s);
    FieldsOfLookup(s);
    assert NameOf(d) == Some(s.fullName);
    assert Num(d, "Course") == Some(s.course) && Num(d, "TotalWorks") == Some(s.totalWorks);
    assert Num(d, "CompletedWorks") == Some(s.completedWorks);
  }

  /** Entries that are all dicts read back from stored records add back exactly those records. */
  lemma AddAllStored(entries: seq<Option<FieldMap>>, xs: seq<Student>)
    requires |entries| == |xs| && forall k :: 0 <= k < |xs| ==> Stored(xs[k]) && entries[k] == Some(FieldsOf(xs[k]))
    ensures AddAll(entries) == (xs, None)
  {
    forall k | 0 <= k < |xs|
      ensures Outcome(entries[k]) == Ok(xs[k])
    {
      StoredFieldsValid(xs[k]);
      OutcomeMeaning(entries[k]);
    }
    AddEachAll(Outcome, entries, xs);
  }

  /** Saving a roster of stored records and loading the file gives the same roster, in the same order. */
  lemma SaveLoadRoundTrip(xs: seq<Student>)
    requires forall k :: 0 <= k < |xs| ==> Stored(xs[k])
    ensures ApplyAll(Fresh, DocumentEvents(xs)).Some?
    ensures AddAll(Records(ApplyAll(Fresh, DocumentEvents(xs)).value)) == (xs, None)
  {
    forall k | 0 <= k < |xs|
      ensures Readable(xs[k])
    {
      StoredReadable(xs[k]);
    }
    DocumentRead(xs);
    AddAllStored(ReadBack(xs), xs);
  }

  class StudentModel {
    const repository: InMemoryStudentRepository

    /** `StudentModel(repository, validator)`, with the basic validator. */
    constructor(repository: InMemoryStudentRepository)
      ensures this.repository == repository
    {
      this.repository := repository;
    }

    /**
     * `add_student`: validation first, and on an error nothing changes; otherwise the caller's
     * map gets the formatted full name (`updated`) and exactly one record is appended, its
     * numeric fields parsed.
     */
    method AddStudent(data: FieldMap) returns (updated: FieldMap, err: Option<ValidationError>)
      modifies repository
      ensures err == Validate(data)
      ensures err.Some? ==> updated == data && repository.students == old(repository.students)
      ensures err.None? ==> updated == data["FullName" := Str(FormatFio(NameOf(data).value))]
                            && repository.students == old(repository.students) + [ToStudent(data)]
    {
      err := Validate(data);
      if err.Some? {
        return data, err;
      }
      updated := data["FullName" := Str(FormatFio(data["FullName"].s))];
      var s := Student(
        updated["FullName"].s,
        IntOf(updated["Course"]).value,
        TextOf(updated["Group"]),
        IntOf(updated["TotalWorks"]).value,
        IntOf(updated["CompletedWorks"]).value,
        TextOf(updated["ProgrammingLanguage"]));
      repository.AddStudent(s);
    }

    /**
     * `load_from_file`, with the file as the events the parser delivers: a parse that raises
     * leaves the repository as it was; otherwise the repository is emptied and the parsed
     * entries added in order until one raises.
     */
    method LoadFromFile(events: seq<Event>) returns (err: Option<LoadError>)
      modifies repository
      ensures ApplyAll(Fresh, events).None? ==> err == Some(ParseFailed) && repository.students == old(repository.students)
      ensures ApplyAll(Fresh, events).Some? ==>
                (repository.students, err) == AddAll(Records(ApplyAll(Fresh, events).value))
    {
      var handler := new SaxHandler();
      var ok := handler.Feed(events);
      if !ok {
        return Some(ParseFailed);
      }
      err := AddEntries(Records(handler.State()));
    }

    /**
     * `add_student` on one entry of the parsed list; an entry that is `None` raises before
     * anything changes.
     */
    method AddEntry(entry: Option<FieldMap>) returns (err: Option<LoadError>)
      modifies repository
      ensures Outcome(entry).Err? ==> err == Some(Outcome(entry).error) && repository.students == old(repository.students)
      ensures Outcome(entry).Ok? ==> err.None? && repository.students == old(repository.students) + [Outcome(entry).value]
    {
      OutcomeMeaning(entry);
      if entry.None? {
        return Some(NotARecord);
      }
      var updated, e := AddStudent(entry.value);
      if e.Some? {
        return Some(Invalid(e.value));
      }
      return None;
    }

    /**
     * The second half of `load_from_file`: the repository emptied, then every entry through
     * `add_student` in order, until one raises.
     */
    method AddEntries(entries: seq<Option<FieldMap>>) returns (err: Option<LoadError>)
      modifies repository
      ensures repository.students == AddAll(entries).0 && err == AddAll(entries).1
    {
      repository.students := [];
      ghost var rest := AddAll(entries);
      assert entries[0..] == entries;
      var i := 0;
      while i < |entries|
        invariant 0 <= i <= |entries|
        invariant rest == AddEach(Outcome, entries[i..])
        invariant AddAll(entries).0 == repository.students + rest.0 && AddAll(entries).1 == rest.1
      {
        ghost var before := repository.students;
        AddEachStep(Outcome, entries, i, before);
        var e := AddEntry(entries[i]);
        if e.Some? {
          assert repository.students + [] == repository.students;
          return e;
        }
        rest := AddEach(Outcome, entries[i + 1..]);
        i := i + 1;
      }
      assert entries[i..] == [];
      return None;
    }
  }
}
