/**
 * The menu state machine of `LR1/console/states.py`: five states, each with its own table
 * from the choice typed to the next state, and the only two console facts the tables read or
 * write: whether `console.student` is set, and whether `exit()` was called.
 */
module ConsoleStates {

  /** The five menu states, named after their classes. */
  datatype State = InitialState | StudentState | TeacherState | AddedState | DeletedState

  /** The console as the transition tables see it. */
  datatype Config = Config(state: State, hasStudent: bool, exited: bool)

  /**
   * What `log_in` did to `console.student`: nothing (the id is not in the students file, or
   * the input ended), set it to the loaded student, or set it to `None` because the stored
   * record could not be decoded.
   */
  datatype LoginOutcome = LeftAlone | Loaded | LoadFailed

  /** `Console.__init__`: the initial menu, no student. */
  const StartConfig := Config(InitialState, false, false)

  /**
   * One `handle_input(choice)`: `login` is what `log_in` did when the initial menu's "1"
   * calls it. In the Added menu, "1" assigns a fresh `Student()` before anything else.
   * A student menu choice other than "0", and the Added and Deleted menus' other choices,
   * are delegated to the console and leave these facts as they are.
   */
  function Step(c: Config, choice: string, login: LoginOutcome): (d: Config)
    ensures d.exited <==> c.exited || (c.state == InitialState && choice == "0")
    ensures choice == "0" && c.state != InitialState ==> !d.hasStudent
    ensures c.state == InitialState && choice == "1" ==> (d.state == StudentState <==> d.hasStudent)
  {
    match c.state
    case InitialState =>
      if choice == "1" then
        var has := if login == Loaded then true else if login == LoadFailed then false else c.hasStudent;
        Config(if has then StudentState else InitialState, has, c.exited)
      else if choice == "2" then c.(state := TeacherState)
      else if choice == "0" then c.(exited := true)
      else c
    case StudentState =>
      if choice == "0" then Config(InitialState, false, c.exited) else c
    case TeacherState =>
      if choice == "1" then c.(state := AddedState)
      else if choice == "2" then c.(state := DeletedState)
      else if choice == "0" then Config(InitialState, false, c.exited)
      else c
    case AddedState =>
      if choice == "0" then Config(TeacherState, false, c.exited)
      else if choice == "1" then c.(hasStudent := true)
      else c
    case DeletedState =>
      if choice == "0" then Config(TeacherState, false, c.exited) else c
  }

  /** The reachability invariant: no student in the Initial, Teacher and Deleted menus, one in the Student menu. */
  predicate Inv(c: Config) {
    (c.state == InitialState || c.state == TeacherState || c.state == DeletedState ==> !c.hasStudent)
    && (c.state == StudentState ==> c.hasStudent)
  }

  lemma StartInv()
    ensures Inv(StartConfig) && !StartConfig.exited
  {
  }

  /** Every transition keeps the invariant. */
  lemma StepPreservesInv(c: Config, choice: string, login: LoginOutcome)
    requires Inv(c)
    ensures Inv(Step(c, choice, login))
  {
  }

  /** The state after a sequence of choices, each with the login outcome it met. */
  function Run(c: Config, steps: seq<(string, LoginOutcome)>): Config
    decreases |steps|
  {
    if steps == [] then c else Run(Step(c, steps[0].0, steps[0].1), steps[1..])
  }

  /** Every reachable configuration satisfies the invariant. */
  lemma {:induction false} RunPreservesInv(c: Config, steps: seq<(string, LoginOutcome)>)
    requires Inv(c)
    ensures Inv(Run(c, steps))
    decreases |steps|
  {
    if steps != [] {
      StepPreservesInv(c, steps[0].0, steps[0].1);
      RunPreservesInv(Step(c, steps[0].0, steps[0].1), steps[1..]);
    }
  }

  /** One more step after a run. */
  lemma {:induction false} RunAppend(c: Config, steps: seq<(string, LoginOutcome)>, choice: string, login: LoginOutcome)
    ensures Run(c, steps + [(choice, login)]) == Step(Run(c, steps), choice, login)
    decreases |steps|
  {
    if steps == [] {
      assert [] + [(choice, login)] == [(choice, login)];
    } else {
      assert (steps + [(choice, login)])[1..] == steps[1..] + [(choice, login)];
      RunAppend(Step(c, steps[0].0, steps[0].1), steps[1..], choice, login);
    }
  }

  /** The program ends only through "0" typed in the initial menu. */
  lemma ExitOnlyFromInitial(c: Config, choice: string, login: LoginOutcome)
    requires !c.exited && Step(c, choice, login).exited
    ensures c.state == InitialState && choice == "0"
  {
  }

  /** The menu tables, state by state. */
  lemma InitialMenu(c: Config, login: LoginOutcome)
    requires c.state == InitialState && Inv(c)
    ensures Step(c, "2", login).state == TeacherState
    ensures Step(c, "1", login).state == (if login == Loaded then StudentState else InitialState)
    ensures forall ch :: ch != "0" && ch != "1" && ch != "2" ==> Step(c, ch, login) == c
  {
  }

  lemma TeacherMenu(c: Config, login: LoginOutcome)
    requires c.state == TeacherState
    ensures Step(c, "1", login).state == AddedState && Step(c, "2", login).state == DeletedState
    ensures Step(c, "0", login) == Config(InitialState, false, c.exited)
    ensures forall ch :: ch != "0" && ch != "1" && ch != "2" ==> Step(c, ch, login) == c
  {
  }

  lemma SubMenus(c: Config, login: LoginOutcome)
    requires c.state == AddedState || c.state == DeletedState
    ensures Step(c, "0", login) == Config(TeacherState, false, c.exited)
    ensures forall ch :: ch != "0" ==> Step(c, ch, login).state == c.state
  {
  }
}
