/** The `Brainfuck` class of lib/index.js: the step budget option and the
    imperative `execute`, over two `Memory` objects updated in place. */
module Interpreter {
  import opened Tapes
  import opened Results
  import opened Normalize
  import opened Engine

  /** The scan of lib/index.js:155-169, run on the `position` object. On
      return `cont` is still true exactly when the scan ran off the end of the
      program, and the object holds what `Scan` computes. */
  method SkipLoop(program: string, position: Memory) returns (cont: bool)
    requires position.Valid() && position.base == PositionBase && |program| < PositionBase
    modifies position
    ensures position.Valid() && position.base == PositionBase
    ensures Scan(program, old(position.pointer), old(position.Snapshot()))
            == if cont then RanOff(position.Snapshot()) else Matched(position.Snapshot())
  {
    cont := true;
    var base := position.pointer;
    ghost var from := position.Snapshot();
    while cont && position.Current() < |program|
      invariant position.Valid() && position.base == PositionBase && base <= position.pointer
      invariant cont ==> Scan(program, base, position.Snapshot()) == Scan(program, base, from)
      invariant !cont ==> Scan(program, base, from) == Matched(position.Snapshot())
      decreases cont, ScanWork(program, base, position.Snapshot())
    {
      ScanWorkDecreases(program, base, position.Snapshot());
      position.Increment();
      var d := position.Current();
      if d < |program| && program[d] == '[' {
        position.IncrementPointer(d);
      } else if d < |program| && program[d] == ']' {
        if position.pointer > base {
          position.DecrementPointer(0);
        } else {
          cont := false;
        }
      }
    }
  }

  datatype Option<T> = None | Some(value: T)

  /** The `switch` of lib/index.js:131-186 on the character at the current
      index, over the two memories, the unread input and the output. It ends
      with the error to throw, if any, and does what `Dispatch` says. */
  method Perform(program: string, memory: Memory, position: Memory, queue: seq<int>, output: string, ghost steps: nat)
      returns (queue': seq<int>, output': string, thrown: Option<ErrorKind>)
    requires memory != position
    requires Ready(program, Machine(memory.Snapshot(), position.Snapshot(), queue, output, steps))
    modifies memory, position
    ensures memory.Valid() && position.Valid()
    ensures Dispatch(program, old(Machine(memory.Snapshot(), position.Snapshot(), queue, output, steps)))
            == var m' := Machine(memory.Snapshot(), position.Snapshot(), queue', output', steps);
               if thrown.Some? then Stop(thrown.value, m') else Next(m')
  {
    queue', output', thrown := queue, output, None;
    var i := position.Current();
    var c := program[i];
    match c {
      case '>' =>
        memory.IncrementPointer(0);
      case '<' =>
        memory.DecrementPointer(0);
      case '+' =>
        memory.Increment();
      case '-' =>
        memory.Decrement();
      case ',' =>
        var v := if queue' == [] then 0 else queue'[0];
        queue' := if queue' == [] then [] else queue'[1..];
        memory.SetCurrent(v);
      case '.' =>
        output' := output' + [memory.CurrentChar()];
      case '[' =>
        if memory.Current() != 0 {
          position.IncrementPointer(position.Current());
        } else {
          var base := position.pointer;
          var cont := SkipLoop(program, position);
          if cont {
            thrown := Some(UnmatchedLoop(position.list[base]));
          }
        }
      case ']' =>
        if position.pointer == 0 {
          thrown := Some(UnmatchedLoop(i));
        } else {
          position.DecrementPointer(0);
          position.Decrement();
        }
      case _ =>
        thrown := Some(InvalidOperator(c));
    }
  }

  class Brainfuck {
    /** The step budget; `execute` throws when `++steps` equals it. */
    const maxSteps: int

    /** `new Brainfuck({maxSteps})`: a falsy option (absent, or 0) becomes
        1000000; any other value, -1 included, is kept. */
    constructor (maxSteps: int)
      ensures this.maxSteps == if maxSteps == 0 then DefaultMaxSteps else maxSteps
    {
      this.maxSteps := if maxSteps == 0 then DefaultMaxSteps else maxSteps;
    }

    /** `execute(code, input)`: returns, throws a `BrainfuckError`, or throws
        the plain error for an empty program, exactly as `Execution` says. */
    method Execute(code: string, input: string) returns (r: Outcome)
      requires maxSteps > 0
      requires |Strip(code)| < PositionBase
      ensures r == Execution(code, input, maxSteps)
    {
      var program := Strip(code);
      if |program| == 0 {
        return EmptyProgram;
      }
      var output: string := "";
      var memory := new Memory(0);
      var position := new Memory(PositionBase);
      var steps: nat := 0;
      var queue := InputCodes(input);
      ghost var start := Machine(memory.Snapshot(), position.Snapshot(), queue, output, steps);
      assert start == Initial(input);

      while position.Current() < |program|
        invariant memory.Valid() && memory.base == DataBase
        invariant position.Valid() && position.base == PositionBase
        invariant steps < maxSteps
        invariant Run(program, maxSteps, Machine(memory.Snapshot(), position.Snapshot(), queue, output, steps))
                  == Run(program, maxSteps, start)
        decreases maxSteps - steps
      {
        ghost var m := Machine(memory.Snapshot(), position.Snapshot(), queue, output, steps);
        var thrown;
        queue, output, thrown := Perform(program, memory, position, queue, output, steps);
        if thrown.Some? {
          return Fail(BrainfuckError(thrown.value, Result(output, memory.Snapshot(), steps)));
        }
        position.Increment();
        steps := steps + 1;
        if steps == maxSteps {
          return Fail(BrainfuckError(TooManySteps(steps), Result(output, memory.Snapshot(), steps)));
        }
        assert Step(program, maxSteps, m) == Next(Machine(memory.Snapshot(), position.Snapshot(), queue, output, steps));
      }
      return Ok(Result(output, memory.Snapshot(), steps));
    }
  }
}
