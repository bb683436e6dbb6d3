/** The meaning of `Brainfuck.execute` (lib/index.js), as functions on values.
    `Run` is the main `while` loop of `execute` written as a tail-recursive
    function, `Step` one pass of its body, `Dispatch` the `switch`, and `Scan`
    the inner loop that skips a loop whose cell is 0. The method
    `Interpreter.Brainfuck.Execute` is proved to compute `Execution`. */
module Engine {
  import opened Wrapping
  import opened Tapes
  import opened Results
  import opened Normalize

  /** The modulus of data memory, `new Memory()`. */
  const DataBase: nat := 256
  /** The modulus of the `position` memory, `new Memory(65536)`. */
  const PositionBase: nat := 65536
  /** The step budget when the option is absent or 0. */
  const DefaultMaxSteps: int := 1000000

  /** The local state of one `execute` call: the data memory, the `position`
      memory (its cursor is the loop depth, the cell under it the current
      index into the program), the input still unread, the output so far and
      the step counter. */
  datatype Machine = Machine(memory: Tape, position: Tape, input: seq<int>, output: string, steps: nat)
  {
    predicate Valid()
    {
      memory.Valid() && memory.base == DataBase && position.Valid() && position.base == PositionBase
    }
  }

  /** `input.split('').map(c => c.charCodeAt(0) % 256)`. */
  function InputCodes(input: string): (codes: seq<int>)
    ensures |codes| == |input|
    ensures forall i | 0 <= i < |input| :: 0 <= codes[i] < 256 && codes[i] == (input[i] as int) % 256
  {
    seq(|input|, i requires 0 <= i < |input| => (input[i] as int) % 256)
  }

  /** Characters with codes below 256 are read back as themselves, and the
      codes of two inputs joined are the codes of each, in order. */
  lemma InputCodesKeepsBytes(a: string, b: string)
    requires forall i | 0 <= i < |a| :: a[i] as int < 256
    ensures forall i | 0 <= i < |a| :: InputCodes(a)[i] == a[i] as int
    ensures InputCodes(a + b) == InputCodes(a) + InputCodes(b)
  {
    forall i | 0 <= i < |a|
      ensures InputCodes(a)[i] == a[i] as int
    {
      DivisionUnique(a[i] as int, 256, 0, a[i] as int);
    }
  }

  /** The state before the first step. */
  function Initial(input: string): (m: Machine)
    ensures m.Valid() && m.steps == 0 && m.output == []
    ensures m.memory.Current() == 0 && m.position.Current() == 0 && m.position.pointer == 0
    ensures m.input == InputCodes(input) && m.memory == Fresh(DataBase) && m.position == Fresh(PositionBase)
  {
    Machine(Fresh(DataBase), Fresh(PositionBase), InputCodes(input), "", 0)
  }

  /** The record built from a state, on return or on a throw. */
  function ResultOf(m: Machine): (r: Result)
    ensures r.output == m.output && r.memory == m.memory && r.steps == m.steps
  {
    Result(m.output, m.memory, m.steps)
  }

  // ----- The forward scan (lib/index.js:155-172) -----

  /** How the scan loop ends: `cont` turned false on a `]` at the starting
      depth, or the index under the cursor reached the end of the program. */
  datatype ScanEnd = Matched(t: Tape) | RanOff(t: Tape)

  /** What the scan needs: a valid `position` memory, a starting depth `base`
      at or below the cursor, and a program short enough for its indices to
      fit a cell without wrapping. */
  predicate ScanReady(code: string, base: nat, t: Tape)
  {
    t.Valid() && t.base == PositionBase && base <= t.pointer && |code| < PositionBase
  }

  /** An upper bound on the scan iterations a frame standing at index `p` may
      still cause: one for its own next move, twice the work of the next index
      when that is a `[` (the frame pushed for it, then this frame again), none
      when it is a `]` (that ends this frame). */
  ghost function Work(code: string, p: int): nat
    decreases |code| - p
  {
    if p < 0 || p >= |code| then 0
    else 1 + (if p + 1 < |code| && code[p + 1] == '[' then 2 * Work(code, p + 1)
              else if p + 1 < |code| && code[p + 1] == ']' then 0
              else Work(code, p + 1))
  }

  ghost function StackWork(code: string, s: seq<int>): nat
    decreases |s|
  {
    if s == [] then 0 else StackWork(code, s[..|s| - 1]) + Work(code, s[|s| - 1])
  }

  /** The termination measure of the scan: the work of every frame from the
      starting depth up to the cursor. */
  ghost function ScanWork(code: string, base: nat, t: Tape): nat
    requires base <= t.pointer < |t.list|
  {
    StackWork(code, t.list[base..t.pointer + 1])
  }

  lemma StackWorkSnoc(code: string, s: seq<int>, x: int)
    ensures StackWork(code, s + [x]) == StackWork(code, s) + Work(code, x)
  {
    assert (s + [x])[..|s|] == s;
  }

  /** The measure is the work of the frames below the cursor plus the work of
      the frame under it. */
  lemma ScanWorkSplit(code: string, base: nat, t: Tape)
    requires base <= t.pointer < |t.list|
    ensures ScanWork(code, base, t) == StackWork(code, t.list[base..t.pointer]) + Work(code, t.list[t.pointer])
  {
    assert t.list[base..t.pointer + 1] == t.list[base..t.pointer] + [t.list[t.pointer]];
    StackWorkSnoc(code, t.list[base..t.pointer], t.list[t.pointer]);
  }

  /** One pass of the scan loop moves the index forward by one without
      wrapping, and whatever it does next makes `ScanWork` smaller. */
  lemma ScanWorkDecreases(code: string, base: nat, t: Tape)
    requires ScanReady(code, base, t) && t.Current() < |code|
    ensures t.Increment().Current() == t.Current() + 1
    ensures var t1 := t.Increment(); var c := t1.Current();
            if c < |code| && code[c] == '[' then
              ScanWork(code, base, t1.IncrementPointer(c)) < ScanWork(code, base, t)
            else if c < |code| && code[c] == ']' then
              t1.pointer > base ==> ScanWork(code, base, t1.DecrementPointer(0)) < ScanWork(code, base, t)
            else
              ScanWork(code, base, t1) < ScanWork(code, base, t)
  {
    var p := t.Current();
    var t1 := t.Increment();
    DivisionUnique(p + 1, PositionBase, 0, p + 1);
    var c := t1.Current();
    var below := StackWork(code, t.list[base..t.pointer]);
    ScanWorkSplit(code, base, t);
    assert t1.list[base..t1.pointer] == t.list[base..t.pointer];
    ScanWorkSplit(code, base, t1);
    assert ScanWork(code, base, t) == below + Work(code, p);
    assert ScanWork(code, base, t1) == below + Work(code, c);
    if c < |code| && code[c] == '[' {
      var t2 := t1.IncrementPointer(c);
      assert t2.list[base..t2.pointer] == t1.list[base..t1.pointer + 1];
      ScanWorkSplit(code, base, t2);
      DivisionUnique(c, PositionBase, 0, c);
      assert ScanWork(code, base, t2) == below + Work(code, c) + Work(code, c);
    } else if c < |code| && code[c] == ']' && t1.pointer > base {
      var t2 := t1.DecrementPointer(0);
      assert t2.list[base..t2.pointer + 1] == t.list[base..t.pointer];
    }
  }

  /** The scan loop: move the index at the top frame forward; push a frame on
      a `[`; on a `]`, pop a frame if above the starting depth, otherwise stop.
      The frames below the starting depth are never touched. */
  function Scan(code: string, base: nat, t: Tape): (r: ScanEnd)
    requires ScanReady(code, base, t)
    ensures ScanReady(code, base, r.t)
    ensures r.t.list[..base] == t.list[..base]
    ensures r.Matched? ==> r.t.pointer == base && r.t.Current() < |code| && code[r.t.Current()] == ']'
    ensures r.RanOff? ==> r.t.Current() >= |code|
    decreases ScanWork(code, base, t)
  {
    if t.Current() >= |code| then RanOff(t)
    else
      ScanWorkDecreases(code, base, t);
      var t1 := t.Increment();
      assert t1.list[..base] == t.list[..base];
      var c := t1.Current();
      if c < |code| && code[c] == '[' then
        assert t1.IncrementPointer(c).list[..base] == t.list[..base];
        Scan(code, base, t1.IncrementPointer(c))
      else if c < |code| && code[c] == ']' then
        if t1.pointer > base then
          assert t1.DecrementPointer(0).list[..base] == t.list[..base];
          Scan(code, base, t1.DecrementPointer(0))
        else Matched(t1)
      else Scan(code, base, t1)
  }

  // ----- One pass of the main loop (lib/index.js:130-189) -----

  /** The pass ends normally with the next state, or throws with the state
      at the throw. */
  datatype StepResult = Next(m: Machine) | Stop(kind: ErrorKind, m: Machine)

  /** The loop guard holds, so there is an instruction to execute. */
  predicate Ready(code: string, m: Machine)
  {
    m.Valid() && |code| < PositionBase && m.position.Current() < |code|
  }

  /** The `switch` on the character at the current index. */
  function Dispatch(code: string, m: Machine): (s: StepResult)
    requires Ready(code, m)
    ensures s.m.Valid() && s.m.steps == m.steps
    ensures m.output <= s.m.output && |s.m.output| <= |m.output| + 1
    ensures s.Stop? ==> !s.kind.TooManySteps? && s.m.memory == m.memory && s.m.output == m.output
  {
    var i := m.position.Current();
    match code[i]
    case '>' => Next(m.(memory := m.memory.IncrementPointer(0)))
    case '<' => Next(m.(memory := m.memory.DecrementPointer(0)))
    case '+' => Next(m.(memory := m.memory.Increment()))
    case '-' => Next(m.(memory := m.memory.Decrement()))
    case ',' =>
      Next(m.(memory := m.memory.SetCurrent(if m.input == [] then 0 else m.input[0]),
              input := if m.input == [] then [] else m.input[1..]))
    case '.' => Next(m.(output := m.output + [m.memory.CurrentChar()]))
    case '[' =>
      if m.memory.Current() != 0 then
        Next(m.(position := m.position.IncrementPointer(i)))
      else
        var base := m.position.pointer;
        (match Scan(code, base, m.position)
         case Matched(t) => Next(m.(position := t))
         case RanOff(t) => Stop(UnmatchedLoop(t.list[base]), m.(position := t)))
    case ']' =>
      if m.position.pointer == 0 then Stop(UnmatchedLoop(i), m)
      else Next(m.(position := m.position.DecrementPointer(0).Decrement()))
    case _ => Stop(InvalidOperator(code[i]), m)
  }

  /** One pass: the dispatch, then the unconditional advance of the current
      index, then `++steps` checked against the budget. */
  function Step(code: string, maxSteps: int, m: Machine): (s: StepResult)
    requires Ready(code, m)
    ensures s.m.Valid()
    ensures m.output <= s.m.output
    ensures s.Next? ==> s.m.steps == m.steps + 1 && s.m.steps != maxSteps
    ensures s.Stop? && s.kind.TooManySteps? ==> s.m.steps == m.steps + 1 == maxSteps == s.kind.reached
    ensures s.Stop? && !s.kind.TooManySteps? ==> s.m.steps == m.steps
  {
    match Dispatch(code, m)
    case Stop(k, m1) => Stop(k, m1)
    case Next(m1) =>
      var m2 := m1.(position := m1.position.Increment(), steps := m1.steps + 1);
      if m2.steps == maxSteps then Stop(TooManySteps(m2.steps), m2) else Next(m2)
  }

  /** The main loop from state `m`: return once the current index is past the
      program, otherwise take a step. The budget bounds the number of steps.
      The text already written is never taken back, and a run throws with the
      budget reached exactly when its step counter meets it. */
  function Run(code: string, maxSteps: int, m: Machine): (r: Outcome)
    requires m.Valid() && |code| < PositionBase && m.steps < maxSteps
    ensures !r.EmptyProgram?
    ensures m.output <= r.Output()
    ensures r.Ok? ==> m.steps <= r.result.steps < maxSteps && r.result.memory.Valid() && r.result.memory.base == DataBase
    ensures r.Fail? ==> m.steps <= r.error.result.steps <= maxSteps
                        && r.error.result.memory.Valid() && r.error.result.memory.base == DataBase
    ensures r.Fail? ==> (r.error.kind.TooManySteps? <==> r.error.result.steps == maxSteps)
    ensures r.Fail? && r.error.kind.TooManySteps? ==> r.error.kind.reached == maxSteps
    decreases maxSteps - m.steps
  {
    if m.position.Current() >= |code| then Ok(ResultOf(m))
    else
      match Step(code, maxSteps, m)
      case Stop(k, m1) => Fail(BrainfuckError(k, ResultOf(m1)))
      case Next(m1) => Run(code, maxSteps, m1)
  }

  /** `execute(code, input)` with a positive budget: filter, reject an empty
      program, run from the initial state. */
  function Execution(code: string, input: string, maxSteps: int): (r: Outcome)
    requires maxSteps > 0 && |Strip(code)| < PositionBase
    ensures r.EmptyProgram? <==> Strip(code) == []
    ensures r.Ok? ==> r.result.steps < maxSteps
    ensures r.Fail? ==> r.error.result.steps <= maxSteps
  {
    var program := Strip(code);
    if program == [] then EmptyProgram else Run(program, maxSteps, Initial(input))
  }
}
