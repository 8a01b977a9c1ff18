/**
 * The console of the tutoring application (`LR1/console/console.py`): the current menu state,
 * the student logged in or being added, the exam and the material being added, and the loop
 * that reads one choice after another and hands it to the current state.
 */
module Consoles {
  import opened Wrappers
  import opened Text
  import opened Catalogue
  import opened Exams
  import opened Attempts
  import opened Materials
  import opened Answering
  import opened ErrorAnalysis
  import opened StudentRecords
  import opened Students
  import opened Literature
  import opened Consultations
  import opened ConsoleStates
  import opened Sequences

  /** What `log_in` does to `console.student` when its input starts with `input`. */
  function LoginOutcomeOf(students: JsonFile, input: seq<string>): (o: LoginOutcome)
    ensures o == Loaded ==> input != [] && LoadStudent(students, input[0]).Some?
    ensures o == LoadFailed ==> input != [] && IdExist(students, input[0]) && LoadStudent(students, input[0]).None?
    ensures o == LeftAlone <==> input == [] || !IdExist(students, input[0])
  {
    if input == [] || !IdExist(students, input[0]) then LeftAlone
    else if LoadStudent(students, input[0]).Some? then Loaded
    else LoadFailed
  }

  /** The choices the student menu hands to the student. */
  const StudentChoices: set<string> := {"1", "2", "3", "4", "5"}

  /**
   * What `process_student_choice` does with `choice` for a logged-in student: `d0` and `d1`
   * are the student before and after, `w0` and `w1` the students file, `materials` the
   * materials file, `sample` the practice questions drawn and `rest` the input left unread.
   */
  ghost predicate StudentChoiceEffect(choice: string, d0: StudentData, w0: JsonFile, materials: JsonFile,
                                      input: seq<string>, sample: seq<Question>,
                                      d1: StudentData, w1: JsonFile, rest: seq<string>)
  {
    IsSuffix(rest, input) &&
    if choice == "1" then
      var a := Analyze(d0.examResult, d0.unexploredTopics);
      rest == input && d1 == d0.(unexploredTopics := a.topics)
      && w1 == (if a.saves then SaveEntry(w0, JsonKey(d0.id), StudentToJson(d1)) else w0)
    else if choice == "2" then
      rest == (if input == [] then [] else input[1..]) &&
      if input == [] || input[0] == "" then d1 == d0 && w1 == w0
      else
        var r := Recommend(d0.materials, input[0], LookupLiterature(LoadAll(materials), input[0]));
        d1 == d0.(materials := r.materials)
        && w1 == (if r.saved then SaveEntry(w0, JsonKey(d0.id), StudentToJson(d1)) else w0)
    else if choice == "3" then
      rest == input &&
      if d0.materials.None? || d0.materials == Some([]) then d1 == d0 && w1 == w0
      else
        var a := Analyze(d0.examResult, d0.unexploredTopics);
        d1 == d0.(unexploredTopics := if a.errors.Ok? then StudyErrors(a.topics, a.errors.value, d0.materials.value) else a.topics)
        && w1 == (if a.saves then SaveEntry(w0, JsonKey(d0.id), StudentToJson(d0.(unexploredTopics := a.topics))) else w0)
    else if choice == "4" then
      d1 == d0 && w1 == w0
      && rest == (if d0.examResult.None? || d0.examResult.value.exam.questions == [] then input
                  else ReadAnswers(|sample|, input).rest)
    else if choice == "5" then
      w1 == w0 &&
      if d0.examResult.None? || d0.examResult.value.exam.questions == [] then rest == input && d1 == d0
      else
        var exam := d0.examResult.value.exam;
        var a := ReadAnswers(|exam.questions|, input);
        rest == a.rest && d1 == d0.(examResult := if a.ok then Some(Attempt(exam, a.answers)) else d0.examResult)
    else
      rest == input && d1 == d0 && w1 == w0
  }

  /** A student with no field set, as `Student()` makes it. */
  const NoStudent := StudentData(None, None, None, None, None, None)

  /**
   * What `process_added_choice` does with `choice` to the three files (`w`: students, `x`:
   * exams, `m`: materials; `0` before and `1` after) and to the input, `rest` being what is
   * left unread: "1" enrols a student, "2" authors an exam, "3" describes a material.
   */
  ghost predicate AddedChoiceFiles(choice: string, w0: JsonFile, x0: JsonFile, m0: JsonFile, input: seq<string>,
                                   w1: JsonFile, x1: JsonFile, m1: JsonFile, rest: seq<string>)
  {
    IsSuffix(rest, input) &&
    if choice == "1" then
      var e := Enrol(NoStudent, LoadAll(w0).Keys, x0, input);
      rest == e.rest && x1 == x0 && m1 == m0
      && w1 == (if e.saved then SaveEntry(w0, Strip(input[0]), StudentToJson(e.data)) else w0)
    else if choice == "2" then
      w1 == w0 && m1 == m0 &&
      if input == [] then rest == [] && x1 == x0
      else if Strip(input[0]) == "" || Strip(input[0]) in LoadAll(x0) then rest == input[1..] && x1 == x0
      else
        var a := ReadQuestions(input[1..]);
        rest == a.rest
        && x1 == (if a.complete then SaveEntry(x0, Strip(input[0]), ExamToJson(ExamData(Some(Strip(input[0])), a.questions))) else x0)
    else if choice == "3" then
      var f := MaterialDialogue(MaterialData(None, None, None, None), LoadAll(m0).Keys, input);
      rest == f.rest && w1 == w0 && x1 == x0
      && m1 == (if f.saved then SaveEntry(m0, Strip(input[1]), MaterialToJson(f.data)) else m0)
    else
      rest == input && w1 == w0 && x1 == x0 && m1 == m0
  }

  /**
   * What `process_deleted_choice` does with `choice` to the three files and to the input:
   * "1", "2" and "3" read a key and delete the student, exam or material it names.
   */
  ghost predicate DeletedChoiceFiles(choice: string, w0: JsonFile, x0: JsonFile, m0: JsonFile, input: seq<string>,
                                     w1: JsonFile, x1: JsonFile, m1: JsonFile, rest: seq<string>)
  {
    rest == (if choice in {"1", "2", "3"} && input != [] then input[1..] else if choice in {"1", "2", "3"} then [] else input)
    && w1 == (if choice == "1" && input != [] && LoadStudent(w0, input[0]).Some? && LoadStudent(w0, input[0]).value.id.Some?
              then DeleteEntry(w0, LoadStudent(w0, input[0]).value.id.value) else w0)
    && x1 == (if choice == "2" && input != [] then DeleteEntry(x0, input[0]) else x0)
    && m1 == (if choice == "3" && input != [] then DeleteEntry(m0, input[0]) else m0)
  }

  /**
   * What `handle_input` of state `s0` does with `choice` to the three files, to the student
   * the console holds (`d0` before, `d1` after, `None` for no student) and to the input: the
   * initial and teacher menus touch no file, and neither does "0"; the other choices of the
   * student, added and deleted menus are those of `process_*_choice` (which, for the added and
   * deleted menus, leave every file and the input as they were on "0" too). The student held
   * afterwards is the one `log_in` loads (none if loading fails) on the initial menu's "1", a
   * fresh enrolment on the added menu's "1", none after "0" on any menu but the initial one,
   * and the one held before otherwise.
   */
  ghost predicate Handled(s0: State, choice: string, w0: JsonFile, x0: JsonFile, m0: JsonFile,
                          input: seq<string>, sample: seq<Question>, d0: Option<StudentData>,
                          w1: JsonFile, x1: JsonFile, m1: JsonFile, d1: Option<StudentData>, rest: seq<string>)
  {
    match s0
    case InitialState =>
      w1 == w0 && x1 == x0 && m1 == m0
      && rest == (if choice == "1" && input != [] then input[1..] else if choice == "1" then [] else input)
      && d1 == (if choice == "1" && LoginOutcomeOf(w0, input) == Loaded then Some(LoadStudent(w0, input[0]).value)
                else if choice == "1" && LoginOutcomeOf(w0, input) == LoadFailed then None
                else d0)
    case TeacherState =>
      w1 == w0 && x1 == x0 && m1 == m0 && rest == input
      && d1 == (if choice == "0" then None else d0)
    case StudentState =>
      x1 == x0 && m1 == m0
      && (choice == "0" ==> w1 == w0 && rest == input && d1.None?)
      && (choice != "0" && d0.None? ==> rest == input && w1 == w0 && d1 == d0)
      && (choice != "0" && d0.Some? ==> d1.Some? && StudentChoiceEffect(choice, d0.value, w0, m0, input, sample, d1.value, w1, rest))
    case AddedState =>
      AddedChoiceFiles(choice, w0, x0, m0, input, w1, x1, m1, rest)
      && d1 == (if choice == "0" then None
                else if choice == "1" then Some(Enrol(NoStudent, LoadAll(w0).Keys, x0, input).data)
                else d0)
    case DeletedState =>
      DeletedChoiceFiles(choice, w0, x0, m0, input, w1, x1, m1, rest)
      && d1 == (if choice == "0" then None else d0)
  }

  /** What the console holds between two choices: its menu configuration, the three files and the student. */
  datatype Snapshot = Snapshot(cfg: Config, students: JsonFile, exams: JsonFile, materials: JsonFile,
                               held: Option<StudentData>)

  /** The practice sample the `k`-th choice draws, when one was given for it. */
  function SampleAt(draws: seq<seq<Question>>, k: nat): seq<Question> {
    if k < |draws| then draws[k] else []
  }

  /**
   * One turn of the loop of `start`, taken from `s0` to `s1` on the unread input `lines`: the
   * choice is the first line, read while the console had not exited; the configuration moves as
   * `Step` says for what logging in met in the input after the choice, and the files and the
   * student change as `Handled` says, leaving `next` unread.
   */
  ghost predicate TurnFrom(lines: seq<string>, sample: seq<Question>, step: (string, LoginOutcome),
                           s0: Snapshot, s1: Snapshot, next: seq<string>)
  {
    lines != [] && step.0 == lines[0] && !s0.cfg.exited
    && step.1 == LoginOutcomeOf(s0.students, lines[1..])
    && s1.cfg == Step(s0.cfg, step.0, step.1)
    && Handled(s0.cfg.state, step.0, s0.students, s0.exams, s0.materials, lines[1..], sample, s0.held,
               s1.students, s1.exams, s1.materials, s1.held, next)
  }

  /** The turn of `TurnFrom` read from line `start` of `input` up to line `end`. */
  ghost predicate TurnTaken(input: seq<string>, sample: seq<Question>, step: (string, LoginOutcome),
                            start: nat, end: nat, s0: Snapshot, s1: Snapshot)
  {
    start < end <= |input| && TurnFrom(input[start..], sample, step, s0, s1, input[end..])
  }

  /**
   * A turn read from `lines`, the unread rest of `input`, that left `next` unread is the turn
   * taken from where `lines` starts to where `next` starts.
   */
  lemma TurnAt(input: seq<string>, lines: seq<string>, next: seq<string>, sample: seq<Question>,
               step: (string, LoginOutcome), start: nat, end: nat, s0: Snapshot, s1: Snapshot)
    requires IsSuffix(lines, input) && lines != [] && IsSuffix(next, lines[1..])
    requires start == |input| - |lines| && end == |input| - |next|
    requires TurnFrom(lines, sample, step, s0, s1, next)
    ensures TurnTaken(input, sample, step, start, end, s0, s1)
  {
    assert input[start..] == lines && input[end..] == next;
    assert TurnFrom(input[start..], sample, step, s0, s1, input[end..]) == TurnFrom(lines, sample, step, s0, s1, next);
  }

  /**
   * A run of turns over `input`: no turn from `snaps[0]`, or a run that `Extends` says its last
   * turn extends.
   */
  ghost predicate Trace(input: seq<string>, draws: seq<seq<Question>>, steps: seq<(string, LoginOutcome)>,
                        starts: seq<nat>, ends: seq<nat>, snaps: seq<Snapshot>)
    decreases |steps|, 1
  {
    |starts| == |steps| && |ends| == |steps| && |snaps| == |steps| + 1
    && (steps != [] ==> Extends(input, draws, steps, starts, ends, snaps))
  }

  /**
   * The last turn of a nonempty run is taken from the run's last snapshot but one to its last,
   * on the first line the run before it left unread (the first line, for the first turn), and
   * that run before it is a run.
   */
  ghost predicate Extends(input: seq<string>, draws: seq<seq<Question>>, steps: seq<(string, LoginOutcome)>,
                          starts: seq<nat>, ends: seq<nat>, snaps: seq<Snapshot>)
    decreases |steps|, 0
  {
    |steps| > 0 && |starts| == |steps| && |ends| == |steps| && |snaps| == |steps| + 1
    && var n := |steps| - 1;
    Trace(input, draws, steps[..n], starts[..n], ends[..n], snaps[..n + 1])
    && starts[n] == (if n == 0 then 0 else ends[n - 1])
    && TurnTaken(input, SampleAt(draws, n), steps[n], starts[n], ends[n], snaps[n], snaps[n + 1])
  }

  /** A turn taken from the run's last snapshot, where the run left the input off, extends the run. */
  lemma TraceStep(input: seq<string>, draws: seq<seq<Question>>, steps: seq<(string, LoginOutcome)>,
                  starts: seq<nat>, ends: seq<nat>, snaps: seq<Snapshot>,
                  sample: seq<Question>, step: (string, LoginOutcome), start: nat, end: nat, s0: Snapshot, s1: Snapshot)
    requires Trace(input, draws, steps, starts, ends, snaps)
    requires start == (if steps == [] then 0 else ends[|steps| - 1])
    requires s0 == snaps[|steps|] && sample == SampleAt(draws, |steps|)
    requires TurnTaken(input, sample, step, start, end, s0, s1)
    ensures Trace(input, draws, steps + [step], starts + [start], ends + [end], snaps + [s1])
  {
    var n := |steps|;
    assert (steps + [step])[..n] == steps && (starts + [start])[..n] == starts;
    assert (ends + [end])[..n] == ends && (snaps + [s1])[..n + 1] == snaps;
    assert TurnTaken(input, SampleAt(draws, n), (steps + [step])[n], (starts + [start])[n], (ends + [end])[n],
                     (snaps + [s1])[n], (snaps + [s1])[n + 1])
        == TurnTaken(input, sample, step, start, end, s0, s1);
  }

  /**
   * A turn read from `lines`, where the run left `input` off, from the run's last snapshot,
   * extends the run.
   */
  lemma TraceTurn(input: seq<string>, draws: seq<seq<Question>>, steps: seq<(string, LoginOutcome)>,
                  starts: seq<nat>, ends: seq<nat>, snaps: seq<Snapshot>, lines: seq<string>, next: seq<string>,
                  sample: seq<Question>, step: (string, LoginOutcome), start: nat, end: nat, s0: Snapshot, s1: Snapshot)
    requires Trace(input, draws, steps, starts, ends, snaps)
    requires IsSuffix(lines, input) && lines != [] && IsSuffix(next, lines[1..])
    requires start == |input| - |lines| && end == |input| - |next|
    requires start == (if steps == [] then 0 else ends[|steps| - 1])
    requires s0 == snaps[|steps|] && sample == SampleAt(draws, |steps|)
    requires TurnFrom(lines, sample, step, s0, s1, next)
    ensures Trace(input, draws, steps + [step], starts + [start], ends + [end], snaps + [s1])
  {
    TurnAt(input, lines, next, sample, step, start, end, s0, s1);
    TraceStep(input, draws, steps, starts, ends, snaps, sample, step, start, end, s0, s1);
  }

  /** The last turn of a run starts where the turn before it ended and is taken as `TurnTaken` says. */
  lemma TraceLast(input: seq<string>, draws: seq<seq<Question>>, steps: seq<(string, LoginOutcome)>,
                  starts: seq<nat>, ends: seq<nat>, snaps: seq<Snapshot>, k: nat)
    requires Trace(input, draws, steps, starts, ends, snaps) && k == |steps| - 1
    ensures starts[k] == (if k == 0 then 0 else ends[k - 1])
    ensures TurnTaken(input, SampleAt(draws, k), steps[k], starts[k], ends[k], snaps[k], snaps[k + 1])
  { }

  /** Turn `k` of a prefix of a run, read in the whole run. */
  lemma TurnShift(input: seq<string>, draws: seq<seq<Question>>, steps: seq<(string, LoginOutcome)>,
                  starts: seq<nat>, ends: seq<nat>, snaps: seq<Snapshot>, k: nat, n: nat)
    requires k < n <= |steps| && |starts| == |steps| && |ends| == |steps| && |snaps| == |steps| + 1
    requires TurnTaken(input, SampleAt(draws, k), steps[..n][k], starts[..n][k], ends[..n][k], snaps[..n + 1][k],
                       snaps[..n + 1][k + 1])
    ensures TurnTaken(input, SampleAt(draws, k), steps[k], starts[k], ends[k], snaps[k], snaps[k + 1])
  {
    assert steps[..n][k] == steps[k] && starts[..n][k] == starts[k] && ends[..n][k] == ends[k];
    assert snaps[..n + 1][k] == snaps[k] && snaps[..n + 1][k + 1] == snaps[k + 1];
  }

  /**
   * In a run, turn `k` is taken as `TurnTaken` says from `snaps[k]` to `snaps[k + 1]`, on the
   * first line for `k == 0` and otherwise on the line where turn `k - 1` left off.
   */
  lemma {:induction false} TraceAt(input: seq<string>, draws: seq<seq<Question>>, steps: seq<(string, LoginOutcome)>,
                                   starts: seq<nat>, ends: seq<nat>, snaps: seq<Snapshot>, k: nat)
    requires Trace(input, draws, steps, starts, ends, snaps) && k < |steps|
    ensures starts[k] == (if k == 0 then 0 else ends[k - 1])
    ensures TurnTaken(input, SampleAt(draws, k), steps[k], starts[k], ends[k], snaps[k], snaps[k + 1])
    decreases |steps|
  {
    var n := |steps| - 1;
    if k == n {
      TraceLast(input, draws, steps, starts, ends, snaps, k);
    } else {
      TraceAt(input, draws, steps[..n], starts[..n], ends[..n], snaps[..n + 1], k);
      TurnShift(input, draws, steps, starts, ends, snaps, k, n);
      assert starts[..n][k] == starts[k];
      if k > 0 {
        assert ends[..n][k - 1] == ends[k - 1];
      }
    }
  }

  class Console {
    var state: State
    var exited: bool
    var student: Student?
    var exam: Exam?
    var educationalMaterial: EducationalMaterial?

    /** `Console()`: the initial menu, nothing loaded. */
    constructor()
      ensures Cfg() == StartConfig
      ensures student == null && exam == null && educationalMaterial == null
    {
      state, exited := InitialState, false;
      student, exam, educationalMaterial := null, null, null;
    }

    /** The record of the student the console holds, if any. */
    function Held(): Option<StudentData>
      reads this, student
    {
      if student == null then None else Some(student.Data())
    }

    /** The console as the menu tables see it. */
    function Cfg(): Config
      reads this
    {
      Config(state, student != null, exited)
    }

    /**
     * `log_in`: reads an id, unstripped. An unknown id, or the end of the input, leaves the
     * student as it was; a known one replaces it by what `Student.load` gives, possibly `None`.
     */
    method LogIn(store: Store, input: seq<string>) returns (rest: seq<string>)
      modifies this`student
      ensures rest == (if input == [] then [] else input[1..])
      ensures LoginOutcomeOf(store.students, input) == LeftAlone ==> student == old(student)
      ensures LoginOutcomeOf(store.students, input) == LoadFailed ==> student == null
      ensures LoginOutcomeOf(store.students, input) == Loaded ==>
                student != null && fresh(student) && student.Data() == LoadStudent(store.students, input[0]).value
    {
      if input == [] {
        return [];
      }
      var id := input[0];
      if !IdExist(store.students, id) {
        return input[1..];
      }
      var d := LoadStudent(store.students, id);
      if d.None? {
        student := null;
      } else {
        student := new Student.FromData(d.value);
      }
      return input[1..];
    }

    /**
     * `process_student_choice`: "1" analyses the errors, "2" reads a topic (unstripped; an
     * empty one raises before anything changes) and holds a consultation on it, "3" studies the
     * materials, "4" takes a practice test on `sample`, "5" retakes the exam. Without a student,
     * or for any other choice, nothing is read and nothing changes.
     */
    method ProcessStudentChoice(choice: string, store: Store, input: seq<string>, sample: seq<Question>)
      returns (rest: seq<string>)
      modifies student, store`students
      ensures student == null ==> rest == input && store.students == old(store.students)
      ensures student != null ==>
                StudentChoiceEffect(choice, old(student.Data()), old(store.students), store.materials, input, sample,
                                    student.Data(), store.students, rest)
    {
      if student == null || choice !in StudentChoices {
        return input;
      }
      if choice == "1" {
        var _ := student.AnalyzeErrors(store);
        return input;
      } else if choice == "2" {
        if input == [] {
          return [];
        }
        var topic := input[0];
        if topic == "" {
          return input[1..];
        }
        var consultation := new AdditionalClasses(student, topic);
        consultation.ConductConsultation(store);
        return input[1..];
      } else if choice == "3" {
        student.StudyMaterials(store);
        return input;
      } else if choice == "4" {
        var correct;
        rest, correct := student.PracticeTest(sample, input);
        ReadAnswersRest(|sample|, input);
      } else {
        var before := student.examResult;
        var passed;
        rest, passed := student.ReExam(input);
        if before.Some? {
          ReadAnswersRest(|before.value.exam.questions|, input);
        }
      }
    }

    /**
     * `process_added_choice`: "1" makes a fresh `Student()` the console's student and enrols
     * it, "2" makes a fresh `Exam()` the console's exam and authors it, "3" makes a fresh
     * `EducationalMaterial()` the console's material and describes it. The object stays the
     * console's whether or not its dialogue saved it. Any other choice reads and changes nothing.
     */
    method ProcessAddedChoice(choice: string, store: Store, input: seq<string>) returns (rest: seq<string>)
      modifies this`student, this`exam, this`educationalMaterial, store
      ensures AddedChoiceFiles(choice, old(store.students), old(store.exams), old(store.materials), input,
                               store.students, store.exams, store.materials, rest)
      ensures choice != "1" ==> student == old(student)
      ensures choice != "2" ==> exam == old(exam)
      ensures choice != "3" ==> educationalMaterial == old(educationalMaterial)
      ensures choice == "1" ==>
                student != null && fresh(student)
                && student.Data() == Enrol(NoStudent, LoadAll(old(store.students)).Keys, old(store.exams), input).data
      ensures choice == "2" ==>
                exam != null && fresh(exam)
                && exam.subject == (if input == [] then None else Some(Strip(input[0])))
                && exam.questions == (if input == [] || Strip(input[0]) == "" || Strip(input[0]) in LoadAll(old(store.exams)) then []
                                      else ReadQuestions(input[1..]).questions)
      ensures choice == "3" ==>
                educationalMaterial != null && fresh(educationalMaterial)
                && educationalMaterial.Data() == MaterialDialogue(MaterialData(None, None, None, None), LoadAll(old(store.materials)).Keys, input).data
    {
      if choice == "1" {
        var s := new Student(None);
        assert s.Data() == NoStudent;
        student := s;
        rest := s.SetInfo(store, input);
        EnrolOutcome(NoStudent, LoadAll(old(store.students)).Keys, old(store.exams), input);
      } else if choice == "2" {
        var e := new Exam(None);
        exam := e;
        rest := e.SetInfo(store, input);
      } else if choice == "3" {
        var m := new EducationalMaterial(None, None, None);
        educationalMaterial := m;
        rest := m.SetInfo(store, input);
      } else {
        rest := input;
      }
    }

    /**
     * `process_deleted_choice`: reads a key, unstripped. "1" loads the student with that id
     * and deletes the record under the id the loaded student carries; an id that does not load
     * deletes nothing. "2" deletes the exam, "3" the material, under the key as typed. Any
     * other choice reads and changes nothing.
     */
    method ProcessDeletedChoice(choice: string, store: Store, input: seq<string>) returns (rest: seq<string>)
      modifies store
      ensures DeletedChoiceFiles(choice, old(store.students), old(store.exams), old(store.materials), input,
                                 store.students, store.exams, store.materials, rest)
    {
      if choice != "1" && choice != "2" && choice != "3" {
        return input;
      }
      if input == [] {
        return [];
      }
      var key := input[0];
      if choice == "1" {
        var d := LoadStudent(store.students, key);
        if d.Some? {
          var s := new Student.FromData(d.value);
          s.Delete(store);
        }
      } else if choice == "2" {
        var e := new Exam(Some(key));
        e.Delete(store);
      } else {
        var m := new EducationalMaterial(Some(key), None, None);
        m.Delete(store);
      }
      return input[1..];
    }

    /**
     * `handle_input` of the current state, with `input` the lines typed after the choice:
     * the menu tables of `Step`, where the initial menu's "1" logs in and the other menus hand
     * their remaining choices to the console.
     */
    method HandleInput(choice: string, store: Store, input: seq<string>, sample: seq<Question>)
      returns (rest: seq<string>)
      modifies this, store, student
      ensures Cfg() == Step(old(Cfg()), choice, LoginOutcomeOf(old(store.students), input))
      ensures IsSuffix(rest, input)
      ensures student == null || student == old(student) || fresh(student)
      ensures Handled(old(state), choice, old(store.students), old(store.exams), old(store.materials), input, sample,
                      old(Held()), store.students, store.exams, store.materials, Held(), rest)
      ensures old(state) == StudentState && choice != "0" ==> student == old(student)
      ensures old(state) == InitialState && choice == "1" && LoginOutcomeOf(old(store.students), input) == Loaded ==>
                student != null && fresh(student) && student.Data() == LoadStudent(old(store.students), input[0]).value
      ensures old(state) == AddedState && choice == "1" ==>
                student != null && fresh(student)
                && student.Data() == Enrol(NoStudent, LoadAll(old(store.students)).Keys, old(store.exams), input).data
    {
      match state
      case InitialState =>
        rest := HandleInitialInput(choice, store, input);
      case StudentState =>
        rest := HandleStudentInput(choice, store, input, sample);
      case TeacherState =>
        HandleTeacherInput(choice);
        rest := input;
      case AddedState =>
        rest := HandleAddedInput(choice, store, input);
      case DeletedState =>
        rest := HandleDeletedInput(choice, store, input);
    }

    /** `InitialState.handle_input`: "1" logs in, "2" opens the teacher menu, "0" exits. */
    method HandleInitialInput(choice: string, store: Store, input: seq<string>) returns (rest: seq<string>)
      requires state == InitialState
      modifies this
      ensures Cfg() == Step(old(Cfg()), choice, LoginOutcomeOf(store.students, input))
      ensures rest == (if choice == "1" && input != [] then input[1..] else if choice == "1" then [] else input)
      ensures student == null || student == old(student) || fresh(student)
      ensures choice != "1" ==> student == old(student)
      ensures choice == "1" && LoginOutcomeOf(store.students, input) == Loaded ==>
                student != null && fresh(student) && student.Data() == LoadStudent(store.students, input[0]).value
      ensures Held() == (if choice == "1" && LoginOutcomeOf(store.students, input) == Loaded then Some(LoadStudent(store.students, input[0]).value)
                         else if choice == "1" && LoginOutcomeOf(store.students, input) == LoadFailed then None
                         else old(Held()))
    {
      rest := input;
      if choice == "1" {
        rest := LogIn(store, input);
        if student != null {
          state := StudentState;
        }
      } else if choice == "2" {
        state := TeacherState;
      } else if choice == "0" {
        exited := true;
      }
    }

    /** `TeacherState.handle_input`: "1" and "2" open the added and deleted menus, "0" goes back. */
    method HandleTeacherInput(choice: string)
      requires state == TeacherState
      modifies this
      ensures Cfg() == Step(old(Cfg()), choice, LeftAlone)
      ensures student == null || student == old(student)
      ensures Held() == (if choice == "0" then None else old(Held()))
    {
      if choice == "1" {
        state := AddedState;
      } else if choice == "2" {
        state := DeletedState;
      } else if choice == "0" {
        student, state := null, InitialState;
      }
    }

    /** `StudentState.handle_input`: "0" logs out to the initial menu; any other choice goes to the student. */
    method HandleStudentInput(choice: string, store: Store, input: seq<string>, sample: seq<Question>)
      returns (rest: seq<string>)
      requires state == StudentState
      modifies this, store, student
      ensures Cfg() == Step(old(Cfg()), choice, LeftAlone)
      ensures IsSuffix(rest, input)
      ensures student == null || student == old(student)
      ensures choice != "0" ==> student == old(student)
      ensures Handled(old(state), choice, old(store.students), old(store.exams), old(store.materials), input, sample,
                      old(Held()), store.students, store.exams, store.materials, Held(), rest)
    {
      if choice == "0" {
        student, state := null, InitialState;
        rest := input;
      } else {
        rest := ProcessStudentChoice(choice, store, input, sample);
      }
    }

    /** `AddedState.handle_input`: "0" goes back to the teacher menu; any other choice adds an object. */
    method HandleAddedInput(choice: string, store: Store, input: seq<string>) returns (rest: seq<string>)
      requires state == AddedState
      modifies this, store
      ensures Cfg() == Step(old(Cfg()), choice, LeftAlone)
      ensures IsSuffix(rest, input)
      ensures student == null || student == old(student) || fresh(student)
      ensures AddedChoiceFiles(choice, old(store.students), old(store.exams), old(store.materials), input,
                               store.students, store.exams, store.materials, rest)
      ensures choice == "1" ==>
                student != null && fresh(student)
                && student.Data() == Enrol(NoStudent, LoadAll(old(store.students)).Keys, old(store.exams), input).data
      ensures Held() == (if choice == "0" then None
                         else if choice == "1" then Some(Enrol(NoStudent, LoadAll(old(store.students)).Keys, old(store.exams), input).data)
                         else old(Held()))
    {
      if choice == "0" {
        student, state := null, TeacherState;
        rest := input;
      } else {
        rest := ProcessAddedChoice(choice, store, input);
      }
    }

    /** `DeletedState.handle_input`: "0" goes back to the teacher menu; any other choice deletes by key. */
    method HandleDeletedInput(choice: string, store: Store, input: seq<string>) returns (rest: seq<string>)
      requires state == DeletedState
      modifies this, store
      ensures Cfg() == Step(old(Cfg()), choice, LeftAlone)
      ensures IsSuffix(rest, input)
      ensures student == null || student == old(student)
      ensures DeletedChoiceFiles(choice, old(store.students), old(store.exams), old(store.materials), input,
                                 store.students, store.exams, store.materials, rest)
      ensures Held() == (if choice == "0" then None else old(Held()))
    {
      if choice == "0" {
        student, state := null, TeacherState;
        rest := input;
      } else {
        rest := ProcessDeletedChoice(choice, store, input);
      }
    }

    /**
     * One pass of the loop of `start`: the first line left is the choice, which the current
     * state handles; the rest of the input is what that handling leaves unread.
     */
    method Turn(store: Store, lines: seq<string>, sample: seq<Question>)
      returns (next: seq<string>, ghost step: (string, LoginOutcome), ghost s0: Snapshot, ghost s1: Snapshot)
      requires lines != []
      modifies this, store, student
      ensures step == (lines[0], LoginOutcomeOf(old(store.students), lines[1..]))
      ensures s0 == old(Now(store)) && s1 == Now(store)
      ensures Cfg() == Step(old(Cfg()), step.0, step.1)
      ensures IsSuffix(next, lines[1..])
      ensures student == null || student == old(student) || fresh(student)
      ensures !old(exited) ==> TurnFrom(lines, sample, step, s0, s1, next)
    {
      step, s0 := (lines[0], LoginOutcomeOf(store.students, lines[1..])), Now(store);
      next := HandleInput(lines[0], store, lines[1..], sample);
      s1 := Now(store);
    }

    /** What the console holds now. */
    function Now(store: Store): Snapshot
      reads this, student, store
    {
      Snapshot(Cfg(), store.students, store.exams, store.materials, Held())
    }

    /**
     * `start`: shows the menu, reads a choice and handles it, and goes on (whatever the
     * handling raised) until `exit()` is called or the input ends. `draws[k]` is the practice
     * sample the `k`-th choice would draw. Choice `k` is line `starts[k]` of the input and its
     * handling leaves the input from `ends[k]` on, where the next choice is read; the console
     * goes through `snaps`, each turn as `TurnTaken` says, and through the states `Run` gives
     * for those choices, and so keeps the menu invariant. It stops having exited, on "0", or
     * with the whole input read.
     */
    method Start(store: Store, input: seq<string>, draws: seq<seq<Question>>)
      returns (ghost steps: seq<(string, LoginOutcome)>, ghost starts: seq<nat>, ghost ends: seq<nat>,
               ghost snaps: seq<Snapshot>)
      requires Inv(Cfg()) && !exited
      modifies this, store, student
      ensures Trace(input, draws, steps, starts, ends, snaps)
      ensures snaps[0] == old(Now(store)) && snaps[|steps|] == Now(store)
      ensures Cfg() == Run(old(Cfg()), steps)
      ensures Inv(Cfg())
      ensures exited ==> |steps| > 0 && steps[|steps| - 1].0 == "0"
      ensures exited || (if steps == [] then input == [] else ends[|steps| - 1] == |input|)
      ensures input != [] ==> |steps| > 0
    {
      steps, starts, ends, snaps := [], [], [], [Now(store)];
      var lines := input;
      var k := 0;
      while lines != [] && !exited
        invariant Cfg() == Run(old(Cfg()), steps) && Inv(Cfg())
        invariant exited ==> |steps| > 0 && steps[|steps| - 1].0 == "0"
        invariant student == null || student == old(student) || fresh(student)
        invariant IsSuffix(lines, input)
        invariant k == |steps|
        invariant Trace(input, draws, steps, starts, ends, snaps)
        invariant snaps[0] == old(Now(store)) && snaps[|steps|] == Now(store)
        invariant |input| - |lines| == (if steps == [] then 0 else ends[|steps| - 1])
        decreases |lines|, !exited
      {
        var sample := SampleAt(draws, k);
        ghost var before := Cfg();
        ghost var at: nat := |input| - |lines|;
        var next, step, s0, s1 := Turn(store, lines, sample);
        ghost var end: nat := |input| - |next|;
        TraceTurn(input, draws, steps, starts, ends, snaps, lines, next, sample, step, at, end, s0, s1);
        SuffixOfTail(next, lines);
        SuffixTrans(next, lines, input);
        lines := next;
        RunAppend(old(Cfg()), steps, step.0, step.1);
        StepPreservesInv(before, step.0, step.1);
        steps, starts, ends, snaps := steps + [step], starts + [at], ends + [end], snaps + [s1];
        k := k + 1;
      }
    }
  }
}
