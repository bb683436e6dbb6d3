/** Whole executions of small programs, worked out pass by pass from the
    definitions. They pin down the edge cases of `execute`: where an
    unmatched loop is reported, that a failed pass is not counted, what the
    filter lets through, how the budget ends a run. */
module Scenarios {
  import opened Wrapping
  import opened Tapes
  import opened Results
  import opened Normalize
  import opened Engine
  import opened EngineProperties

  /** A `]` with no open loop fails at its own index before any step counts. */
  lemma CloseWithoutOpen()
    ensures Execution("]", "", DefaultMaxSteps)
            == Fail(BrainfuckError(UnmatchedLoop(0), Result("", Fresh(DataBase), 0)))
  {
    StripKeepsPrograms("]");
    StepUnmatchedClose("]", DefaultMaxSteps, Initial(""));
  }

  /** A `[` over a zero cell with nothing after it is reported at the program
      length, not at its own index. */
  lemma OpenRunsOffTheEnd()
    ensures Execution("[", "", DefaultMaxSteps)
            == Fail(BrainfuckError(UnmatchedLoop(1), Result("", Fresh(DataBase), 0)))
  {
    StripKeepsPrograms("[");
    StepSkipRunsOff("[", DefaultMaxSteps, Initial(""));
    assert FirstOpenOrEnd("[", 0) == 1;
  }

  /** The skip stops on the first `]`: in `[[]]` over a zero cell it lands on
      index 2, so the `]` at index 3 is then unmatched, after one step. */
  lemma NestedSkipStopsAtFirstClose()
    ensures Execution("[[]]", "", DefaultMaxSteps)
            == Fail(BrainfuckError(UnmatchedLoop(3), Result("", Fresh(DataBase), 1)))
  {
    var code := "[[]]";
    StripKeepsPrograms(code);
    var m0 := Initial("");
    StepSkipsToFirstClose(code, DefaultMaxSteps, m0, 2);
    var m1 := Step(code, DefaultMaxSteps, m0).m;
    RunUnfolds(code, DefaultMaxSteps, m0);
    StepUnmatchedClose(code, DefaultMaxSteps, m1);
  }

  /** An entered loop whose `]` is missing simply runs off the end: no error. */
  lemma EnteredLoopNeedNotClose()
    ensures Execution("+[", "", DefaultMaxSteps).Ok?
    ensures Execution("+[", "", DefaultMaxSteps).result.steps == 2
    ensures Execution("+[", "", DefaultMaxSteps).result.memory.Current() == 1
  {
    StripKeepsPrograms("+[");
    OpenStart(Initial(""));
  }

  lemma OpenStart(m: Machine)
    requires Ready("+[", m) && m.position.Current() == 0 && m.steps == 0 && m.memory.Current() == 0
    ensures Run("+[", DefaultMaxSteps, m).Ok?
    ensures Run("+[", DefaultMaxSteps, m).result.steps == 2
    ensures Run("+[", DefaultMaxSteps, m).result.memory.Current() == 1
  {
    StepDataCommand("+[", DefaultMaxSteps, m);
    RunUnfolds("+[", DefaultMaxSteps, m);
    DivisionUnique(1, DataBase, 0, 1);
    OpenEnter(Step("+[", DefaultMaxSteps, m).m);
  }

  lemma OpenEnter(m: Machine)
    requires Ready("+[", m) && m.position.Current() == 1 && m.steps == 1 && m.memory.Current() == 1
    ensures Run("+[", DefaultMaxSteps, m).Ok?
    ensures Run("+[", DefaultMaxSteps, m).result.steps == 2
    ensures Run("+[", DefaultMaxSteps, m).result.memory.Current() == 1
  {
    StepEntersLoop("+[", DefaultMaxSteps, m);
    RunUnfolds("+[", DefaultMaxSteps, m);
  }

  /** Moving left off the left end puts a new zero cell in front: `+<`
      leaves the cells `[0, 1]` with the cursor on the new one. */
  lemma LeftEdgeGrows()
    ensures Execution("+<", "", DefaultMaxSteps) == Ok(Result("", Tape([0, 1], 0, DataBase), 2))
  {
    StripKeepsPrograms("+<");
    LeftEdgeStart(Initial(""));
  }

  lemma LeftEdgeStart(m: Machine)
    requires Ready("+<", m) && m.position.Current() == 0 && m.steps == 0
    requires m.memory == Fresh(DataBase) && m.output == ""
    ensures Run("+<", DefaultMaxSteps, m) == Ok(Result("", Tape([0, 1], 0, DataBase), 2))
  {
    StepDataCommand("+<", DefaultMaxSteps, m);
    RunUnfolds("+<", DefaultMaxSteps, m);
    var m1 := Step("+<", DefaultMaxSteps, m).m;
    DivisionUnique(1, DataBase, 0, 1);
    assert m1.memory == Tape([1], 0, DataBase);
    LeftEdgeLast(m1);
  }

  lemma LeftEdgeLast(m: Machine)
    requires Ready("+<", m) && m.position.Current() == 1 && m.steps == 1
    requires m.memory == Tape([1], 0, DataBase) && m.output == ""
    ensures Run("+<", DefaultMaxSteps, m) == Ok(Result("", Tape([0, 1], 0, DataBase), 2))
  {
    StepDataCommand("+<", DefaultMaxSteps, m);
    RunUnfolds("+<", DefaultMaxSteps, m);
    var m1 := Step("+<", DefaultMaxSteps, m).m;
    assert m1.memory.list == [0, 1];
  }

  /** `,` reads a character code and `.` writes it back. */
  lemma Echo()
    ensures Execution(",.", "A", DefaultMaxSteps).Ok?
    ensures Execution(",.", "A", DefaultMaxSteps).result.output == "A"
  {
    var code := ",.";
    StripKeepsPrograms(code);
    var m0 := Initial("A");
    assert m0.input == [65];
    StepDataCommand(code, DefaultMaxSteps, m0);
    RunUnfolds(code, DefaultMaxSteps, m0);
    DivisionUnique(65, DataBase, 0, 65);
    WriteLast(code, DefaultMaxSteps, Step(code, DefaultMaxSteps, m0).m);
  }

  /** The last pass of a program ending in `.`. */
  lemma WriteLast(code: string, maxSteps: int, m: Machine)
    requires Ready(code, m) && m.position.Current() == |code| - 1 && code[|code| - 1] == '.'
    requires m.steps + 1 < maxSteps
    ensures Run(code, maxSteps, m).Ok?
    ensures Run(code, maxSteps, m).result.output == m.output + [m.memory.Current() as char]
  {
    StepDataCommand(code, maxSteps, m);
    RunUnfolds(code, maxSteps, m);
  }

  /** Reading past the end of the input stores 0. */
  lemma ReadPastInput()
    ensures Execution("-,.", "", DefaultMaxSteps).Ok?
    ensures Execution("-,.", "", DefaultMaxSteps).result.output == [0 as char]
  {
    var code := "-,.";
    StripKeepsPrograms(code);
    var m0 := Initial("");
    StepDataCommand(code, DefaultMaxSteps, m0);
    RunUnfolds(code, DefaultMaxSteps, m0);
    ReadEmpty(code, DefaultMaxSteps, Step(code, DefaultMaxSteps, m0).m);
  }

  lemma ReadEmpty(code: string, maxSteps: int, m: Machine)
    requires Ready(code, m) && code == "-,." && m.position.Current() == 1 && m.input == [] && m.output == []
    requires m.steps + 2 < maxSteps
    ensures Run(code, maxSteps, m).Ok? && Run(code, maxSteps, m).result.output == [0 as char]
  {
    StepDataCommand(code, maxSteps, m);
    RunUnfolds(code, maxSteps, m);
    WriteLast(code, maxSteps, Step(code, maxSteps, m).m);
  }

  /** Cells wrap: `-` on a fresh cell gives 255. */
  lemma DecrementWraps()
    ensures Execution("-.", "", DefaultMaxSteps).Ok?
    ensures Execution("-.", "", DefaultMaxSteps).result.output == [255 as char]
  {
    var code := "-.";
    StripKeepsPrograms(code);
    var m0 := Initial("");
    StepDataCommand(code, DefaultMaxSteps, m0);
    RunUnfolds(code, DefaultMaxSteps, m0);
    DecrementWrapsToTop(m0.memory);
    WriteLast(code, DefaultMaxSteps, Step(code, DefaultMaxSteps, m0).m);
  }

  /** The budget counts every step: three steps with a budget of three fail
      on the third, with the work so far kept in the result. */
  lemma BudgetReached()
    ensures Execution("+++", "", 3).Fail?
    ensures Execution("+++", "", 3).error.kind == TooManySteps(3)
    ensures Execution("+++", "", 3).error.result.memory.Current() == 3
  {
    StripKeepsPrograms("+++");
    BudgetStart(Initial(""));
  }

  lemma BudgetStart(m: Machine)
    requires Ready("+++", m) && m.position.Current() == 0 && m.steps == 0 && m.memory.Current() == 0
    ensures Run("+++", 3, m).Fail? && Run("+++", 3, m).error.kind == TooManySteps(3)
    ensures Run("+++", 3, m).error.result.memory.Current() == 3
  {
    StepDataCommand("+++", 3, m);
    RunUnfolds("+++", 3, m);
    DivisionUnique(1, DataBase, 0, 1);
    BudgetTail(Step("+++", 3, m).m);
  }

  lemma BudgetTail(m: Machine)
    requires Ready("+++", m) && m.position.Current() == 1 && m.steps == 1 && m.memory.Current() == 1
    ensures Run("+++", 3, m).Fail? && Run("+++", 3, m).error.kind == TooManySteps(3)
    ensures Run("+++", 3, m).error.result.memory.Current() == 3
  {
    StepDataCommand("+++", 3, m);
    RunUnfolds("+++", 3, m);
    var m1 := Step("+++", 3, m).m;
    DivisionUnique(2, DataBase, 0, 2);
    DivisionUnique(3, DataBase, 0, 3);
    StepDataCommand("+++", 3, m1);
  }

  /** A loop comes back to its `[` until its cell is 0: `+[-]` enters once,
      comes back to index 1 from the `]`, then skips to the end, in five
      steps. */
  lemma LoopRunsOnce()
    ensures Execution("+[-]", "", DefaultMaxSteps).Ok?
    ensures Execution("+[-]", "", DefaultMaxSteps).result.memory.Current() == 0
    ensures Execution("+[-]", "", DefaultMaxSteps).result.steps == 5
  {
    StripKeepsPrograms("+[-]");
    LoopStart(Initial(""));
  }

  lemma LoopStart(m: Machine)
    requires Ready("+[-]", m) && m.position.pointer == 0 && m.position.Current() == 0
    requires m.memory.Current() == 0 && m.steps == 0
    ensures Run("+[-]", DefaultMaxSteps, m).Ok?
    ensures Run("+[-]", DefaultMaxSteps, m).result.memory.Current() == 0
    ensures Run("+[-]", DefaultMaxSteps, m).result.steps == 5
  {
    StepDataCommand("+[-]", DefaultMaxSteps, m);
    RunUnfolds("+[-]", DefaultMaxSteps, m);
    DivisionUnique(1, DataBase, 0, 1);
    LoopEnter(Step("+[-]", DefaultMaxSteps, m).m);
  }

  /** The run of `+[-]` from its `[`, first with the cell at 1. */
  lemma LoopEnter(m: Machine)
    requires Ready("+[-]", m) && m.position.pointer == 0 && m.position.Current() == 1
    requires m.memory.Current() == 1 && m.steps == 1
    ensures Run("+[-]", DefaultMaxSteps, m).Ok?
    ensures Run("+[-]", DefaultMaxSteps, m).result.memory.Current() == 0
    ensures Run("+[-]", DefaultMaxSteps, m).result.steps == 5
  {
    StepEntersLoop("+[-]", DefaultMaxSteps, m);
    RunUnfolds("+[-]", DefaultMaxSteps, m);
    var m1 := Step("+[-]", DefaultMaxSteps, m).m;
    assert m1.position.list[0] == m1.position.list[..1][0] == m.position.list[..1][0] == 1;
    LoopBody(m1);
  }

  lemma LoopBody(m: Machine)
    requires Ready("+[-]", m) && m.position.pointer == 1 && m.position.list[0] == 1 && m.position.Current() == 2
    requires m.memory.Current() == 1 && m.steps == 2
    ensures Run("+[-]", DefaultMaxSteps, m).Ok?
    ensures Run("+[-]", DefaultMaxSteps, m).result.memory.Current() == 0
    ensures Run("+[-]", DefaultMaxSteps, m).result.steps == 5
  {
    StepDataCommand("+[-]", DefaultMaxSteps, m);
    RunUnfolds("+[-]", DefaultMaxSteps, m);
    var m1 := Step("+[-]", DefaultMaxSteps, m).m;
    assert m1.position.list[0] == 1;
    LoopClose(m1);
  }

  lemma LoopClose(m: Machine)
    requires Ready("+[-]", m) && m.position.pointer == 1 && m.position.list[0] == 1 && m.position.Current() == 3
    requires m.memory.Current() == 0 && m.steps == 3
    ensures Run("+[-]", DefaultMaxSteps, m).Ok?
    ensures Run("+[-]", DefaultMaxSteps, m).result.memory.Current() == 0
    ensures Run("+[-]", DefaultMaxSteps, m).result.steps == 5
  {
    StepLeavesLoop("+[-]", DefaultMaxSteps, m);
    RunUnfolds("+[-]", DefaultMaxSteps, m);
    LoopExit(Step("+[-]", DefaultMaxSteps, m).m);
  }

  lemma LoopExit(m: Machine)
    requires Ready("+[-]", m) && m.position.pointer == 0 && m.position.Current() == 1
    requires m.memory.Current() == 0 && m.steps == 4
    ensures Run("+[-]", DefaultMaxSteps, m).Ok?
    ensures Run("+[-]", DefaultMaxSteps, m).result.memory.Current() == 0
    ensures Run("+[-]", DefaultMaxSteps, m).result.steps == 5
  {
    StepSkipsToFirstClose("+[-]", DefaultMaxSteps, m, 3);
    RunUnfolds("+[-]", DefaultMaxSteps, m);
  }

  /** Letters survive the filter and are rejected when reached; spaces are
      removed. The `+` before the letter has been counted. */
  lemma LettersAreRejected()
    ensures Execution("+ a", "", DefaultMaxSteps).Fail?
    ensures Execution("+ a", "", DefaultMaxSteps).error.kind == InvalidOperator('a')
    ensures Execution("+ a", "", DefaultMaxSteps).error.result.steps == 1
    ensures Execution("+ a", "", DefaultMaxSteps).error.result.memory.Current() == 1
  {
    assert Strip("+ a") == "+a";
    LettersStart(Initial(""));
  }

  lemma LettersStart(m: Machine)
    requires Ready("+a", m) && m.position.Current() == 0 && m.steps == 0 && m.memory.Current() == 0
    ensures Run("+a", DefaultMaxSteps, m).Fail?
    ensures Run("+a", DefaultMaxSteps, m).error.kind == InvalidOperator('a')
    ensures Run("+a", DefaultMaxSteps, m).error.result.steps == 1
    ensures Run("+a", DefaultMaxSteps, m).error.result.memory.Current() == 1
  {
    StepDataCommand("+a", DefaultMaxSteps, m);
    RunUnfolds("+a", DefaultMaxSteps, m);
    DivisionUnique(1, DataBase, 0, 1);
    StepRejectsNonCommand("+a", DefaultMaxSteps, Step("+a", DefaultMaxSteps, m).m);
  }

  /** Nothing left after filtering is the plain error. */
  lemma OnlyWhitespace()
    ensures Execution(" \n", "", DefaultMaxSteps) == EmptyProgram
  {
  }

  /** The message texts. */
  lemma UnmatchedMessage()
    ensures UnmatchedLoop(12).Message() == "Unmatched loop at index 12"
  {
    assert NatToString(12) == "12";
  }

  lemma InvalidMessage()
    ensures InvalidOperator('x').Message() == "Invalid operator 'x'"
  {
  }

  lemma BudgetMessage()
    ensures TooManySteps(1000000).Message() == "Too many steps (1000000 reached)"
  {
    Million();
    BudgetText(1000000, "1000000");
  }

  lemma BudgetText(n: nat, digits: string)
    requires NatToString(n) == digits
    ensures TooManySteps(n).Message() == "Too many steps (" + digits + " reached)"
  {
  }

  lemma Million()
    ensures NatToString(1000000) == "1000000"
  {
    assert NatToString(1) == "1";
    assert NatToString(10) == "10";
    assert NatToString(100) == "100";
    assert NatToString(1000) == "1000";
    assert NatToString(10000) == "10000";
    assert NatToString(100000) == "100000";
  }
}
